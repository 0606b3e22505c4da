# Podcast backend: a Dafny model of its hard parts

The backend keeps shared rows consistent while many requests act on them at once, and computes a
few things whose result must be exact. This project models those parts and proves what they
promise over every input, every run and every reachable state.

| file | what it models |
|---|---|
| `Ingestion.dfy` | the feed-ingestion dispatcher: submitters, bounded queue, workers, cancellation, per-user token buckets with eviction |
| `History.dfy` | listening history as last-writer-wins rows with tombstones and trimming |
| `HistoryTies.dfy` | the same when time stamps may be equal: exactly what converges |
| `CanonicalRequest.dfy`, `Sorting.dfy` | the canonical string an App Attest assertion signs |
| `RefreshTokens.dfy` | refresh-token families with rotation and replay detection |
| `LoginRaces.dfy` | logins racing with account deletions and password resets |
| `Attestation.dfy` | racing assertions on a stored counter, enrolment challenges |
| `Corpus.dfy` | transcript candidates, releases, rollback, publisher promotion, attachment tokens |
| `CorpusOutcomes.dfy` | what each corpus transaction does, row by row |
| `Limits.dfy` | the daily quota, the Redis fixed window and its two implementations |
| `Groups.dfy` | group roles, bans, the private cap, owner succession |
| `GroupRaces.dfy` | the group handlers split into checks and writes |
| `GroupOutcomes.dfy` | what each group handler does, row by row, and who can be in a private group |
| `Threads.dfy` | comment and post trees with cached roots and tombstones |
| `Feed.dfy` | follows, blocks, mutes and the activity feed |
| `FeedRaces.dfy` | following and blocking split into statements |
| `FeedOutcomes.dfy` | what each handler of the graph does, and exactly what a feed shows |
| `Folders.dfy` | repair of suggested folder assignments |
| `Runs.dfy` | when a property that single steps can break holds throughout a run |
| `Artwork.dfy`, `Avatar.dfy` | box blur and compositing of default artwork, EXIF orientation |

Every protocol has the same shape. A `State` and an `Event` datatype with a function `Step` say
what one step does to the whole state; an event whose guard fails changes nothing, so a theorem
about every sequence of events is a theorem about every run. A class holds the same state in
fields and its methods follow the statements and branches of the code; each handler is proved
equal to one `Step`, or to the `Run` of its steps where other requests may act in between. What
only the proofs need of a concurrent protocol, such as the program counters of goroutines and
requests, is in ghost fields. The theorems are lemmas about `Step` and `Run`: an invariant every
step keeps, what it means from the empty state on, and what holds between two points of a run. The
loops of the exact algorithms are methods with invariants, proved against a direct definition of
the result. Beside the invariants, outcome lemmas say of every event what it does to the rows,
refusals included, without the functions `Step` is composed of.

## Conventions

- Each transaction and each single statement is one step. The group, graph and comment handlers
  check and then write without a transaction. `Groups.dfy`, `Feed.dfy` and `Threads.dfy` take each
  such handler as one step; `GroupRaces.dfy` and `FeedRaces.dfy` split them, prove that undisturbed
  they are those steps, and prove exactly when what the atomic models promise survives.
- The dispatcher, the assertion middleware, enrolment and login are split throughout: the locked section, the
  arms of the select, receive, return and finish; reading, verifying, advancing and re-reading a
  key; burning a challenge and inserting a key; checking a password and inserting a token are
  separate steps that interleave freely.
- A call reads the clock once, and time does not run backwards where that matters (the
  dispatcher; in the source the limiter reads it a second time). The quota and window theorems
  hold for calls at any times, or say that times do not decrease.
- Fresh ids, uuids, hashes and families are values not used before.
- A new release is active, a new attachment token unconsumed, and deleting a group deletes its
  rows. `received_at` and `created_at` are the step's time.
- The token bucket of the rate limiter is modelled over the reals: 20 tokens, one per 180 seconds.
- A Redis key is there up to and including the millisecond of its deadline, as Redis compares them.
- SHA-256 is an opaque digest, signature verification an outcome given by the event. The text
  functions of the folder repair (trimming, lower-casing) are arbitrary functions. The parsed query
  of a request is an input; `path.Clean` is its effect on rooted paths, that no segment is empty, a
  dot or two dots. Upper-casing a method is ASCII.
- Bytes of encoded text are integers from 0 to 255. Images start at the origin, as the ones the
  code makes do.
- Handles are already resolved to users in `Feed.dfy` and `Groups.dfy`.
- The fallback folder name is not empty, as every localized one is not.
- A password change revokes all tokens as a reset does and is the same event.

Some promises hold only under a condition; for each the model shows a run on which it fails and
proves exactly when it holds.

- Every in-flight entry can be released, unless it is still queued when cancellation has stopped
  all workers (`Ingestion.EntryReleasableUnlessStranded`, reached by `Ingestion.StrandingReachable`).
- The history shows the same rows in whatever order changes arrive and wherever it is trimmed if
  and only if every episode that may be among the newest certainly is, ties included, and its
  newest changes show the same (`HistoryTies.OutcomesAgreeIff`; `HistoryTies.OrderIrrelevantIff`
  without trims). Pairwise distinct stamps are enough.
- A deleted user holds no live refresh token, and every live token rests on its user's present
  password, if and only if no deletion or reset falls between the check and the insert of a login
  (`LoginRaces.DeletedHoldNothingIff`, `LoginRaces.PasswordsCurrentIff`). A deleted user's token is
  never of use (`RefreshTokens.DeletedNeverRefresh`).
- Waiting for the advertised Retry-After is enough unless the caller is back in the very
  millisecond of the deadline (`Limits.WaitingSufficesIff`, failing in `Limits.ExactWaitIsTooShort`).
- Follows across a block are severed, and the feed needs no block filter, if and only if no follow
  is inserted after the deletions of a block its check did not see (`FeedRaces.AwaitingIff`,
  failing in `FeedRaces.LateFollowShows`).
- One owner row per group, a standing ban, and a private group's privacy and cap survive the races
  of the group handlers if and only if no late write demotes a successor, deletes a banned user's
  row, shows the group or overfills it (`GroupRaces.OwnerRowsIff`, `GroupRaces.BanHoldsIff`,
  `GroupRaces.PrivateIff`; failing in `LateJoinDemotes`, `LateLeaveLiftsBan`, `LateUpdateShows`).
  Late joins, acceptances and invitations never undo a ban.

## Model

| member | source | states |
|---|---|---|
| `Ingestion.Dispatcher.constructor` | ingestion.go:37-59 | workers are at least one, the queue at least as long as there are workers; the object is the protocol's initial state |
| `Ingestion.Dispatcher.Admit` | ingestion.go:73-101 | the locked part of Submit is the protocol's Submit step on the whole state, with its verdict; a URL already in flight costs no token |
| `Ingestion.Dispatcher.Charge` | ingestion.go:80-92 | a limiter is made on first use, its last-seen time always moves, a token is taken exactly when one is there |
| `Ingestion.Dispatcher.Sweep` | ingestion.go:94-100 | in whatever order the map is visited, exactly the entries idle for more than two hours are gone |
| `Ingestion.Dispatcher.Offer` | ingestion.go:103-110 | the select is the Enqueue, SeeCancelled or SeeQueueFull step, whichever arm is ready |
| `Ingestion.Dispatcher.TakeJob` | ingestion.go:130-135 | the worker's select is the Receive step, the Stop step on cancellation, or waits |
| `Ingestion.Dispatcher.FinishUrl` | ingestion.go:146-150 | finish is the Release step of a submitter that gave up, or the Finish step of a worker |
| `Ingestion.Dispatcher.SubmitUrl` | ingestion.go:63-111 | a whole call is the run of its steps; the URL is queued and in flight exactly when it was admitted and there was room, otherwise nothing is left behind |
| `Ingestion.Dispatcher.WorkOnce` | ingestion.go:129-144 | one turn of the worker's loop is the run of Receive, IngestReturns and Finish, or the worker stops or waits |
| `Ingestion.HolderBefore` | ingestion.go:63-150 | whoever holds a URL after a step held it before or was admitted by that step |
| `Ingestion.ReleaseSparesOthers` | ingestion.go:146-150 | releasing one URL never drops the in-flight entry of another |
| `Ingestion.HolderAfter` | ingestion.go:63-150 | a step that does not release a URL leaves it held, at the place it moved to |
| `Ingestion.StepKeepsAccounted` | ingestion.go:63-150 | every step of every goroutine keeps the in-flight set in bijection with the occupied places (submitter, queue slot, worker) |
| `Ingestion.RunKeepsAccounted` | ingestion.go:63-150 | the same over every interleaving of any number of submitters and workers, with cancellation |
| `Ingestion.DispatcherSafety` | ingestion.go:63-150 | from the start: no URL at two workers, twice in the queue, or queued and being ingested; the queue within its capacity; no leftover entry when nobody holds anything |
| `Ingestion.StrandedForever` | ingestion.go:131-133 | a job still queued when every worker has returned on cancellation stays in flight through every continuation |
| `Ingestion.StrandingReachable` | ingestion.go:103-133 | submit, enqueue, cancel, stop from the initial state: a queued URL that no continuation releases |
| `Ingestion.QueuedCanRelease` | ingestion.go:129-144 | while one worker runs, every queued URL can still be worked off and released |
| `Ingestion.SubmitterCanRelease` | ingestion.go:103-110 | an admitted submitter can always still give its URL back |
| `Ingestion.EntryReleasableUnlessStranded` | ingestion.go:63-150 | an entry can be released if and only if it is not stranded in the queue behind stopped workers |
| `Ingestion.SubmitKeepsRelation` | ingestion.go:80-100 | an evicting and a never-evicting dispatcher decide a submission alike and stay equal up to limiters that are full again |
| `Ingestion.EvictionInvisible` | ingestion.go:94-100 | over every run the verdicts equal those of a dispatcher that never evicts |
| `Ingestion.SpendingBound` | ingestion.go:80-92 | acceptances in an interval never exceed what the user's bucket can still hand out |
| `Ingestion.RateBound` | ingestion.go:80-100 | at most 20 acceptances plus one per three minutes in every interval of every run, eviction included |
| `Ingestion.RateLimitedIff` | ingestion.go:80-92 | after every run a submission of a URL not in flight is refused if and only if in some interval up to now one acceptance more would exceed 20 plus one per 180 seconds |
| `Ingestion.RunCovers` | ingestion.go:83-88 | a bucket never lacks more tokens than were accepted since it was last full |
| `Ingestion.DuplicateIsFree` | ingestion.go:74-79 | a URL already in flight changes nothing and costs no token |
| `Ingestion.CancelledIff` | ingestion.go:105-106 | a run is cancelled exactly when it was cancelled |
| `History.HistoryTable.UpsertItem` | db/queries.sql.go:7755-7767 | the row changes exactly when there is none or the new stamp is strictly greater, and then to the new payload, not deleted |
| `History.HistoryTable.TombstoneItem` | db/queries.sql.go:6924-6931 | the same rule for a tombstone, which keeps the old payload columns |
| `History.HistoryTable.Newest` | db/queries.sql.go:7059-7067 | a row of the set that no other row of it is newer than |
| `History.HistoryTable.TrimRows` | db/queries.sql.go:7059-7067 | what is kept is unchanged, of the right number, and no dropped row is newer than a kept one |
| `History.ApplyAllKeepsWinners` | db/queries.sql.go:7755-7767 | after any deliveries every episode shows a delivered change with the greatest stamp |
| `History.WinnersAgree` | db/queries.sql.go:7755-7767 | two tables of winners of the same distinctly stamped changes show the same rows |
| `History.DeliveryOrderIrrelevant` | db/queries.sql.go:6924-6931 | untrimmed delivery in any order with any repetitions shows the same rows |
| `HistoryTies.OrderIrrelevantIff` | db/queries.sql.go:7755-7767 | for any set of changes, the order of untrimmed delivery is irrelevant if and only if the newest changes of each episode show the same |
| `HistoryTies.EqualStampsDependOnOrder` | db/queries.sql.go:6924-6931 | an upsert and a tombstone with equal stamps: the first one delivered stays |
| `History.DeliverKeepsTracks` | db/queries.sql.go:7755-7767 | a delivery to a trimmed and to an untrimmed table keeps their newest rows equal, even for rows the trim had dropped |
| `History.TrimKeepsTracks` | db/queries.sql.go:7059-7067 | an early trim never loses one of the newest rows of the untrimmed table |
| `History.RunTracks` | db/queries.sql.go:7059-7067 | a whole run with trims anywhere keeps the newest rows of the untrimmed table |
| `History.FinalTrimsAgree` | db/queries.sql.go:7059-7067 | trimming the tracking table and trimming the untrimmed one show the same rows |
| `History.IncrementalTrimEqualsTrimOnce` | db/queries.sql.go:7059-7067 | deliveries in any order with trims anywhere and one at the end equal delivering everything and trimming once |
| `History.Convergence` | db/queries.sql.go:6924-6931 | two replicas that saw the same changes, in any order and trimmed anywhere, end with the same visible rows |
| `History.TrimExists` | db/queries.sql.go:7059-7067 | every table has a trim for every limit, so the theorems above are not vacuous |
| `HistoryTies.RunKeepsSafe` | db/queries.sql.go:7059-7067 | with any ties, no trim of any run drops an episode that fewer than the limit can rival, once its newest change has come |
| `HistoryTies.OutcomesAgreeIff` | db/queries.sql.go:7059-7067 | for any set of changes and any limit, all orders of delivery with trims anywhere end in the same visible rows if and only if the newest episodes are determined, ties included |
| `HistoryTies.TieDiverges` | db/queries.sql.go:7059-7067 | a tie at the limit: one trim keeps the episode, another drops it |
| `HistoryTies.TiedEpisodesDiverge` | db/queries.sql.go:7059-7067 | two episodes with one stamp and room for one: orders agree untrimmed, outcomes do not |
| `HistoryTies.DistinctAreDetermined` | db/queries.sql.go:7059-7067 | pairwise distinct stamps meet the condition for every limit |
| `CanonicalRequest.Canonicalize` | attest/request.go:18-65 | refuses exactly the noncanonical targets and unparsable queries; otherwise the answer is a canonical string of the request |
| `CanonicalRequest.CollectPairs` | attest/request.go:35-44 | whatever order the map is visited in, each decoded pair is listed as often as it occurs, a key without entries once with an empty value |
| `CanonicalRequest.AppendEntries` | attest/request.go:41-43 | one key's values, escaped and appended |
| `CanonicalRequest.QueryEscapeIsPercentEncoding` | attest/request.go:67-69 | form encoding with the plus sign replaced is RFC 3986 percent-encoding: the replacement touches encoded spaces only |
| `CanonicalRequest.EscapeRoundTrip` | attest/request.go:67-69 | percent-decoding undoes the escaping, and the escaped text holds no separator |
| `CanonicalRequest.EncodeRoundTrip` | attest/request.go:26-26 | percent-decoding undoes percent-encoding, whichever reserved bytes are kept |
| `CanonicalRequest.EncodeAlphabet` | attest/request.go:26-26 | encoded text holds only unreserved bytes, the kept ones and the percent sign (section 2.3 of RFC 3986) |
| `CanonicalRequest.EncodeByteMeans` | attest/request.go:26-26 | exactly which bytes stay as they are in a query and in a path; the others become a percent sign and two upper-case digits |
| `CanonicalRequest.PathEncodingInjective` | attest/request.go:26-29 | encoded paths determine the decoded path and hold no newline |
| `CanonicalRequest.JoinInjective` | attest/request.go:51-61 | the joined query text determines the list of encoded pairs |
| `CanonicalRequest.EncodedAlike` | attest/request.go:42-42 | encoded pairs agree as multisets if and only if the decoded ones do |
| `CanonicalRequest.PairsAreOrdered` | attest/request.go:45-50 | the comparison is a total order on pairs, so the sorted list is unique |
| `CanonicalRequest.AssembleInjective` | attest/request.go:57-63 | the five joined lines determine method, path, query and digest |
| `CanonicalRequest.TextInjective` | attest/request.go:51-63 | equal texts have equal methods, decoded paths, encoded pairs and digests |
| `CanonicalRequest.CanonicalIffSameRequest` | attest/request.go:18-65 | same canonical string if and only if the methods agree up to case, the paths are equal (an empty one being the root), every key has the same values as often (none counting as one empty value), and the digests are equal |
| `CanonicalRequest.SamePartsIff` | attest/request.go:18-65 | upper-casing, the root path and the empty value identify exactly those requests |
| `CanonicalRequest.CanonicalSays` | attest/request.go:57-63 | the string read line by line: v1, the upper-cased method, a path that decodes to the request's, a query that reads back as its pairs, a digest in hexadecimal |
| `CanonicalRequest.AcceptableIff` | attest/request.go:19-34 | a request has a canonical string exactly if its query parses, its path is empty or rooted without backslash, empty stretch or dots, and its raw path is the canonical one |
| `CanonicalRequest.CleanIffNoDots` | attest/request.go:23-25 | cleaning leaves a rooted path alone exactly if no stretch between slashes is empty, a dot or two dots |
| `CanonicalRequest.SortedMeans` | attest/request.go:45-50 | the pairs are in bytewise order of escaped key, then escaped value |
| `Sorting.AtMostMeans` | attest/request.go:45-50 | the string order is decided by the first difference |
| `Sorting.SortedUnique` | attest/request.go:45-50 | under a total order a multiset has one sorted arrangement, so an unstable sort cannot show |
| `RefreshTokens.TokenStore.RevokeOne` | db/queries.sql.go:6358-6369 | revokes the one row if it is live, and says so in the number of rows |
| `RefreshTokens.TokenStore.RevokeFamily` | db/queries.sql.go:6371-6374 | every token of the family is revoked, no other row changes |
| `RefreshTokens.TokenStore.RevokeAll` | db/queries.sql.go:6345-6356 | every token of the user is revoked, no other row changes |
| `RefreshTokens.TokenStore.Create` | db/queries.sql.go:729-732 | exactly one row is added |
| `RefreshTokens.TokenStore.Rotate` | handlers/account.go:256-266 | the old token is revoked and its successor issued in the same family for the same user, device and scope; the fallback for another row count is proved unreachable |
| `RefreshTokens.TokenStore.RefreshGrant` | handlers/account.go:193-240 | the transaction is the protocol's Refresh step; granted exactly for a live, unexpired token of a living user on its own device |
| `RefreshTokens.TokenStore.SignIn` | handlers/account.go:76-76 | login's insert is the Issue step: a new family with one live token, whether or not the user is still there |
| `RefreshTokens.TokenStore.CheckPassword` | handlers/account.go:57-69 | login's check passes exactly for a living user with the right password, and changes no row |
| `RefreshTokens.TokenStore.SignUp` | handlers/account.go:137-148 | registration is the Register step: user and first token in one transaction |
| `RefreshTokens.TokenStore.ResetAll` | handlers/account.go:330-347 | a reset is the ResetPassword step exactly for a living user with an accepted code, and changes nothing otherwise |
| `RefreshTokens.TokenStore.SignOut` | handlers/account.go:297-307 | a known token ends its family, an unknown one changes nothing |
| `RefreshTokens.TokenStore.Delete` | handlers/account.go:484-497 | deletion revokes everything the user holds |
| `RefreshTokens.RotateKeepsChained` | handlers/account.go:256-279 | rotation extends the family's chain by one and leaves the other chains alone |
| `RefreshTokens.StepKeepsGood` | handlers/account.go:193-307 | every step keeps each family one rotated-from chain, revoked but for its last token, and ids unique |
| `RefreshTokens.RunKeepsGood` | handlers/account.go:193-307 | the same over every run |
| `RefreshTokens.AtMostOneLive` | handlers/account.go:256-266 | two unrevoked tokens of one family are the same token |
| `RefreshTokens.FamilySafety` | handlers/account.go:193-307 | from the empty table: chains, at most one live token per family, every token a known user's |
| `RefreshTokens.SuccessorOrigin` | handlers/account.go:193-279 | whatever the event, a rotated-in token comes from a live, unexpired token of a living user on its own device, inherits its user, device, scope and family, and revokes it |
| `RefreshTokens.NewTokenHolds` | handlers/account.go:268-279 | registration and login store the user, device, scope, family and expiry they were given, live, and touch no other row |
| `RefreshTokens.LoginMeans` | handlers/account.go:57-76 | a login checks a living user and inserts for that user |
| `RefreshTokens.RefreshOutcome` | handlers/account.go:193-240 | on the rows: a live, unexpired token from its own device of a living user is rotated, a revoked one or a wrong device revokes the family, anything else changes nothing |
| `RefreshTokens.SignOutOutcome` | handlers/account.go:297-307 | signing out revokes exactly the token's family; an unknown token changes nothing |
| `RefreshTokens.ResetOutcome` | handlers/account.go:330-347 | a reset revokes exactly what a living user holds |
| `RefreshTokens.DeletionOutcome` | handlers/account.go:484-497 | a deletion revokes exactly what the user holds and marks them deleted |
| `RefreshTokens.RefreshSucceeds` | handlers/account.go:193-279 | through every continuation of a sign-in, while its token is unrevoked and the user lives, a timely refresh from that device leaves a live successor for the same user, device and scope |
| `RefreshTokens.RowFixed` | db/queries.sql.go:6358-6374 | apart from being revoked a token's row never changes |
| `LoginRaces.DeletedHoldNothingIff` | handlers/account.go:57-76 | deleted users hold nothing live throughout a run if and only if no login inserts its token after its user's deletion |
| `RefreshTokens.DeletionSurvived` | handlers/account.go:57-76 | from any state with a living user: check, delete, insert leaves a live token of a deleted user |
| `LoginRaces.PasswordsCurrentIff` | handlers/account.go:330-347 | throughout a run every live token rests on its user's present password if and only if no reset falls between the check and the insert of a login |
| `LoginRaces.ResetSurvived` | handlers/account.go:330-347 | from any state with a living user: check, reset, insert leaves a live token of the replaced password |
| `LoginRaces.HistoryOfRun` | handlers/account.go:57-76 | the recorded history does not influence the tables |
| `RefreshTokens.LateLoginReachable` | handlers/account.go:57-76 | register, pass the check, delete the account, insert: a deleted user's live token |
| `RefreshTokens.DeletedNeverRefresh` | handlers/account.go:214-217 | a deleted user's token is refused in every later state |
| `RefreshTokens.DeadForever` | db/queries.sql.go:6371-6374 | a family without live tokens never gets one again, over every continuation |
| `RefreshTokens.MisuseEndsFamily` | handlers/account.go:198-213 | a replayed token, a wrong device or a revocation leaves the family without a live token in every later state |
| `RefreshTokens.OnceRotatedStaysRevoked` | db/queries.sql.go:6358-6369 | no event ever brings back a revoked token or changes its row |
| `RefreshTokens.ReplayAfterRotation` | handlers/account.go:193-266 | rotate, anything, replay, anything: nobody holds a live token of the family |
| `Attestation.KeyStore.AdvanceCounter` | db/queries.sql.go:50-54 | the compare-and-update is the Advance step: one row exactly when the key is active and the counter strictly greater |
| `Attestation.KeyStore.FindKey` | handlers/attest_middleware.go:78-91 | the first read is the ReadKey step |
| `Attestation.KeyStore.ClassifyMiss` | handlers/attest_middleware.go:118-132 | the second read is the Classify step |
| `Attestation.KeyStore.Authorize` | handlers/attest_middleware.go:78-136 | an undisturbed request is the run of its four steps: accepted, stale and bad-signature exactly when the key and counter say so |
| `Attestation.KeyStore.EnrollKey` | handlers/attest.go:107-141 | an undisturbed enrolment is the run of burning and inserting; the challenge is gone whether or not the attestation is genuine |
| `Attestation.KeyStore.ConsumeChallenge` | db/queries.sql.go:247-251 | the deletion is the BurnChallenge step: found exactly when known and unexpired |
| `Attestation.StepKeepsIncreasing` | handlers/attest_middleware.go:108-136 | every step keeps accepted counters per key strictly increasing and at most the stored one |
| `Attestation.StepKeepsExplained` | handlers/attest_middleware.go:118-132 | a request whose update hit no row has a reason that lasts |
| `Attestation.CounterNeverFalls` | db/queries.sql.go:5648-5652 | over every run keys stay, stored counters never fall and revoked keys stay revoked, re-enrolment included |
| `Attestation.RunKeepsIncreasing` | handlers/attest_middleware.go:78-136 | the invariants over every interleaving of requests, enrolments and revocations |
| `Attestation.NoAssertionTwice` | handlers/attest_middleware.go:108-136 | accepted counters of a key strictly increase in commit order, so no assertion is accepted twice |
| `Attestation.StaleIsTruthful` | handlers/attest_middleware.go:118-132 | the stale answer is given only when the presented counter is at most the stored one |
| `Attestation.BurnedForever` | db/queries.sql.go:247-251 | a consumed challenge enrols nothing in any continuation |
| `Attestation.BurnedAtMostOnce` | handlers/attest.go:107-117 | over every run a challenge is consumed at most once |
| `Attestation.EnrolsAtMostOnce` | handlers/attest.go:107-141 | over every run, racing enrolments included, a challenge enrols at most one key |
| `Attestation.NewKeyWorks` | db/queries.sql.go:5648-5652 | a newly enrolled key is active with counter zero: its first assertion is accepted exactly if its counter is positive |
| `Attestation.ReadOutcome` | handlers/attest_middleware.go:78-91 | both reads ask for a known and active key |
| `Attestation.VerifyOutcome` | handlers/attest_middleware.go:97-106 | an assertion that does not verify ends the request; verifying writes nothing |
| `Attestation.AdvanceOutcome` | db/queries.sql.go:50-54 | exactly a greater counter of an active key is stored and accepted |
| `Attestation.ChallengeOutcome` | db/queries.sql.go:247-251 | a challenge can be presented once, from its issue until its time has come |
| `Attestation.InsertOutcome` | db/queries.sql.go:5648-5652 | only a genuine enrolment of an unknown key adds one |
| `Corpus.CorpusStore.FindCandidate` | db/corpus.go:67-73 | the candidate with this episode, language, source and content, or the id to insert under |
| `Corpus.CorpusStore.InsertUploads` | db/corpus.go:98-111 | the artifact loop equals inserting one after the other, skipping what is already there |
| `Corpus.CorpusStore.CreateContribution` | db/corpus.go:45-138 | the whole transaction is the protocol's Contribute step; refused exactly when fifty contributions are counted in the last 24 hours, and only new content adds to the count |
| `Corpus.CorpusStore.ArmToken` | db/corpus.go:112-129 | a token is made, replaced while unconsumed by the candidate's own contributor, or left alone |
| `Corpus.CorpusStore.AttachMetadata` | db/corpus.go:146-178 | succeeds exactly with the unconsumed, unexpired token and fresh artifacts, and then consumes it |
| `Corpus.CorpusStore.DeactivateAll` | db/admin.go:115-117 | no release of the key is active, nothing else changes |
| `Corpus.CorpusStore.AdminPromote` | db/admin.go:86-140 | succeeds exactly when every filled slot names an artifact of its kind and episode, and then replaces the active release |
| `Corpus.CorpusStore.AdminRollback` | db/admin.go:198-218 | reactivates exactly the named release, fails on an unknown one |
| `Corpus.CorpusStore.UpsertTranscript` | db/corpus.go:279-287 | the existing transcript artifact with this content, or a new one |
| `Corpus.CorpusStore.CreatePublisherCandidate` | db/corpus.go:255-318 | promotes exactly when the URL is verified and no admin release is active |
| `Corpus.SwitchKeepsOneActive` | db/admin.go:115-122 | deactivating a key and activating one release keeps one active release per key |
| `Corpus.StepKeepsOneActive` | db/admin.go:86-140 | every step keeps at most one active release per episode and language, and one once there is any |
| `Corpus.StepKeepsSlots` | db/admin.go:96-114 | every filled slot keeps holding an artifact of its kind and of the release's episode |
| `Corpus.StepKeepsLinked` | db/corpus.go:65-129 | every artifact has its candidate; exactly the contribution candidates have a token, one each |
| `Corpus.RunKeepsGood` | db/admin.go:86-140 | all of these over every run |
| `Corpus.PublisherYieldsToAdmin` | db/corpus.go:289-313 | a publisher step leaves an active admin release untouched |
| `Corpus.AdminReleaseStands` | db/corpus.go:289-313 | an admin's active release stays as it is through any run in which no admin action takes effect on another release of its episode and language |
| `Corpus.NeverRearmed` | db/corpus.go:112-129 | a consumed token is never consumed or replaced again, over every run |
| `Corpus.ConsumedAtMostOnce` | db/corpus.go:153-159 | over every run a candidate's token is consumed at most once |
| `Corpus.StepKeepsForeignToken` | db/corpus.go:116-129 | a step by anyone but the contributor leaves the token hash alone |
| `Corpus.TokenOnlyFromContributor` | db/corpus.go:112-129 | over every run a token is replaced only when the candidate's own contributor submits the same content again |
| `Corpus.RunKeepsQuota` | db/corpus.go:51-82 | over every run no attribution has more than fifty contributions in any 24 hours |
| `Corpus.RunKeepsUnique` | db/corpus.go:87-111 | the two unique indexes hold in every reachable state |
| `Corpus.CorpusSafety` | db/corpus.go:45-138 | from the empty corpus: one active release, fitting slots, one token per contribution, unique indexes, the quota |
| `CorpusOutcomes.RollbackOutcome` | db/admin.go:204-213 | the named release becomes its key's only active one with the slots and author it had; nothing else changes |
| `CorpusOutcomes.RollbackStands` | db/admin.go:198-218 | what an admin rolls back to is active afterwards and stays so until an admin replaces it |
| `CorpusOutcomes.PromoteOutcome` | db/admin.go:92-124 | a release of exactly the given slots and author becomes its key's only active one if every slot fits, otherwise nothing changes |
| `CorpusOutcomes.ContributeOutcome` | db/corpus.go:51-137 | fifty rows in 24 hours refuse; otherwise the candidate is found or made, its uploads are there, its token armed, and only new content is counted |
| `CorpusOutcomes.AttachOutcome` | db/corpus.go:153-172 | exactly an unconsumed, unexpired token of the candidate is consumed and the artifacts added |
| `CorpusOutcomes.PublishOutcome` | db/corpus.go:261-313 | candidate and transcript are found or made; a verified one becomes its key's only active release unless an admin's is active |
| `CorpusOutcomes.DeriveOutcome` | db/admin.go:166-196 | a derived candidate is new content of its parent's episode with one artifact |
| `CorpusOutcomes.AnonymizeOutcome` | db/migrations/028_corpus.up.sql:80-88 | one user's attribution is wiped from their candidates and nothing else changes |
| `Limits.QuotaTable.CountRecent` | db/corpus.go:55-58 | the loop's count is the number of rows newer than the cutoff |
| `Limits.QuotaTable.TryInsert` | handlers/transcripts.go:318-344 | lock, count, insert as one step: admitted exactly below the limit, and then one row is added |
| `Limits.CallKeepsQuota` | handlers/social.go:653-670 | one gated insert keeps every 24-hour window, wherever it starts, within the limit |
| `Limits.QuotaHolds` | db/corpus.go:51-61 | over every run no identity has more than its limit in any half-open 24-hour window |
| `Limits.GateOutcome` | db/corpus.go:55-61 | admitted exactly below the limit of rows in the last 86400 seconds, and then one row is stored unless it was there |
| `Limits.ClosedWindowHoldsMore` | db/corpus.go:51-61 | two rows exactly 24 hours apart pass a limit of one, so the window must be half open |
| `Limits.ImplementationsAgree` | handlers/update_podcast.go:16-36 | the two scripts, command by command with their own arguments and answers, store the same key, decide alike and advertise the same wait on every trace |
| `Limits.CallSpends` | handlers/distributed_limit.go:13-18 | one call spends what can still be admitted in an interval of one window |
| `Limits.TwiceTheLimit` | handlers/distributed_limit.go:13-29 | both implementations admit fewer than twice the limit in any interval of one window length, ends included, from any key |
| `Limits.TwiceTheLimitIsReached` | handlers/distributed_limit.go:13-18 | twice the limit less one is reached, for every limit and window |
| `Limits.RetryRoundings` | handlers/distributed_limit.go:31-36 | both roundings agree on every remaining time, the negative answers included: the least whole seconds that cover it, at least one |
| `Limits.KeysExpire` | handlers/distributed_limit.go:13-16 | over every trace a stored counter has a deadline |
| `Limits.DeadlineStands` | handlers/distributed_limit.go:13-18 | further calls never move a window's deadline |
| `Limits.WaitingSufficesIff` | handlers/distributed_limit.go:31-38 | after the advertised wait the refusing window is over, whatever calls came in between, if and only if the caller is not back in the millisecond of the deadline |
| `Limits.LaterIsAdmitted` | handlers/distributed_limit.go:31-38 | coming back later than advertised, with no new window opened, the caller is admitted |
| `Limits.ExactWaitIsTooShort` | handlers/distributed_limit.go:31-38 | a one-second window refuses a caller back after exactly one second |
| `Limits.Redis.Increment` | handlers/distributed_limit.go:14-14 | INCR: an expired or missing key restarts at one without a deadline |
| `Limits.Redis.RunFlagScript` | handlers/distributed_limit.go:13-18 | the first script, command by command, is its specification |
| `Limits.Redis.RunCountScript` | handlers/update_podcast.go:16-21 | the second script, command by command, is its specification |
| `Limits.Redis.RedisLimit` | handlers/distributed_limit.go:20-38 | the flag decides, the remaining time is rounded in nanoseconds; only the prefixed key changes |
| `Limits.Redis.AllowRedisWindow` | handlers/update_podcast.go:23-36 | the count is compared with the limit, the remaining time rounded in milliseconds; only the key changes |
| `Groups.GroupStore.UpsertMember` | db/queries.sql.go:7731-7736 | a ban is overwritten by a ban only, and tenure is kept |
| `Groups.GroupStore.DropGroup` | db/queries.sql.go:1176-1178 | the group and its member rows are gone, nothing else |
| `Groups.GroupStore.CreateGroup` | handlers/groups.go:70-89 | the group and its owner's row come together |
| `Groups.GroupStore.UpdateGroup` | handlers/groups.go:127-154 | succeeds exactly for the owner and not from private to public |
| `Groups.GroupStore.DeleteGroup` | handlers/groups.go:158-178 | succeeds exactly for the owner |
| `Groups.GroupStore.JoinGroup` | handlers/groups.go:182-212 | public groups only, never over a ban |
| `Groups.GroupStore.LeaveGroup` | handlers/groups.go:216-240 | members and invitees leave, owners and banned users do not |
| `Groups.GroupStore.InviteToGroup` | handlers/groups.go:245-296 | any member invites someone visible without a row, unless the private cap is reached |
| `Groups.GroupStore.RespondToInvite` | handlers/groups.go:299-337 | accepting takes a seat under the cap, declining drops the row |
| `Groups.GroupStore.KickFromGroup` | handlers/groups.go:341-373 | the owner kicks or bans anyone else |
| `Groups.GroupStore.FindSuccessor` | db/queries.sql.go:1441-1445 | the longest-tenured plain member other than the one leaving, if there is any |
| `Groups.GroupStore.HandOnAll` | handlers/social.go:757-783 | the succession loop over the owned public groups, in any order: each passes to its heir or is deleted |
| `Groups.GroupStore.SweepOwned` | handlers/social.go:784-789 | the owned private groups and all of the user's rows are gone |
| `Groups.GroupStore.EraseUser` | handlers/social.go:752-789 | the whole group part of erasure is the protocol's Erase step |
| `Groups.HandedIsErased` | handlers/social.go:757-789 | the loop and the two sweeps together are the erasure the specification describes |
| `Groups.EraseKeepsOwned` | handlers/social.go:757-789 | succession leaves every surviving group with its one owner row |
| `Groups.StepKeepsOwned` | handlers/groups.go:182-373 | every event keeps exactly one owner row per group, matching the group's owner |
| `Groups.RunKeepsOwned` | handlers/groups.go:182-373 | the same over every run |
| `Groups.StepKeepsPrivate` | handlers/groups.go:134-139 | a private group stays private, and gains no member at one hundred or more |
| `Groups.NewSeat` | handlers/groups.go:313-330 | a seat in a private group is taken only by accepting an invitation while one is free |
| `Groups.PrivateForever` | handlers/groups.go:134-139 | over every run a private group stays private and within one hundred members, or within those it had |
| `Groups.BanHolds` | db/queries.sql.go:7731-7736 | over every run, refused attempts included, a banned user has no other role until an owner's plain kick, their own erasure or the group's end |
| `Groups.OnlyOwnerLifts` | handlers/groups.go:353-367 | the kick that lifts a ban is the group owner's, never the banned user's |
| `Groups.GroupSafety` | handlers/groups.go:42-373 | from the start: one owner row each, owners are joined |
| `GroupOutcomes.CreateOutcome` | handlers/groups.go:70-89 | the group is stored with the requested visibility and its creator as owner, in the group's row and the member's |
| `GroupOutcomes.OnlyByInvitation` | handlers/groups.go:182-337 | from its creation on nobody but its creator is ever in a private group without having been invited by somebody in it |
| `GroupOutcomes.UpdateOutcome` | handlers/groups.go:127-154 | the owner changes the visibility, never from private to public; everybody else nothing |
| `GroupOutcomes.DeleteOutcome` | handlers/groups.go:158-178 | the owner deletes the group with exactly its rows |
| `GroupOutcomes.JoinOutcome` | handlers/groups.go:182-212 | anybody joined without a row, or invited, becomes a member of a public group |
| `GroupOutcomes.LeaveOutcome` | handlers/groups.go:216-240 | exactly a member or somebody invited drops their row |
| `GroupOutcomes.InviteOutcome` | handlers/groups.go:245-296 | a member or the owner invites somebody visible without a row while a seat is left |
| `GroupOutcomes.RespondOutcome` | handlers/groups.go:299-337 | accepting takes a seat if one of a hundred is left, declining drops the row |
| `GroupOutcomes.KickOutcome` | handlers/groups.go:341-373 | the holder of the owner row bans anybody else or drops their row |
| `GroupOutcomes.EraseOutcome` | handlers/social.go:757-786 | an owned group dies unless it is public and has a plain member: then the longest-tenured one takes over |
| `GroupOutcomes.EraseRows` | handlers/social.go:757-789 | the user's rows and those of dead groups go, the successor's becomes the owner's, all others stay |
| `GroupOutcomes.ErasePossible` | handlers/social.go:757-783 | in every state there are successors for all groups that need one |
| `GroupOutcomes.UpsertOutcome` | db/queries.sql.go:7731-7736 | any role is written but over a ban, which only a ban overwrites; tenure is kept |
| `GroupRaces.UndisturbedHandler` | handlers/groups.go:106-373 | update, join, leave, invite, respond and kick are their check followed by their write |
| `GroupRaces.OwnerRowsIff` | handlers/groups.go:182-373 | under all races every group keeps exactly one owner row, its owner's, if and only if no late write hits somebody who has succeeded to the group |
| `GroupRaces.LateJoinDemotes` | handlers/groups.go:194-210 | a second join of a successor takes the owner row away |
| `GroupRaces.BanHoldsIff` | db/queries.sql.go:7731-7736 | under all races a ban holds as long as the group exists if and only if nobody lifts it and no deletion of the row was decided on before it |
| `GroupRaces.LateLeaveLiftsBan` | handlers/groups.go:226-238 | a leave decided on before a ban takes the ban with it |
| `GroupRaces.PrivateIff` | handlers/groups.go:129-154 | under all races a private group stays private and within its cap if and only if no late update shows it and no late write seats somebody beyond the cap |
| `GroupRaces.LateUpdateShows` | handlers/groups.go:129-154 | of two updates the one that hides the group can be overtaken |
| `Threads.ThreadStore.SubmitEntry` | handlers/groupposts.go:48-90 | a reply needs a living parent in the same scope and no block, a post membership as well; its root is cached from the parent |
| `Threads.ThreadStore.EditEntry` | handlers/comments.go:231-246 | only the author, inside the grace time, before the first reply |
| `Threads.ThreadStore.DeleteEntry` | handlers/groupposts.go:302-319 | author or group owner; the row becomes a tombstone once |
| `Threads.ThreadStore.EraseEntries` | db/queries.sql.go:6840-6850 | all of the author's rows become tombstones, their places are kept |
| `Threads.TopStable` | handlers/comments.go:108-114 | walking up is not affected by changes that keep the parents of the scope |
| `Threads.TopIsTop` | handlers/comments.go:108-114 | the walk ends at a node without a parent in the same scope |
| `Threads.SubmitKeepsRooted` | handlers/groupposts.go:62-90 | a new reply's cached root is the top of its tree |
| `Threads.StepKeepsRooted` | handlers/groupposts.go:272-286 | every event keeps cached roots right and rows removed exactly when their author is null |
| `Threads.RunKeepsRooted` | handlers/comments.go:82-125 | the same in every reachable forest |
| `Threads.CachedRootIsTop` | handlers/comments.go:110-114 | from the start: the cached root is the top reached by walking parents, in the same scope |
| `Threads.SubmitOutcome` | handlers/comments.go:82-125 | an entry is stored as given exactly if its gate and its parent allow it |
| `Threads.EditOutcome` | handlers/comments.go:231-246 | exactly the author, within 300 seconds and before any reply, changes the text and nothing else |
| `Threads.DeleteOutcome` | handlers/groupposts.go:302-319 | the author or the group's owner leaves a tombstone in the same place |
| `Threads.SweepOutcome` | db/queries.sql.go:6840-6905 | erasure leaves tombstones for exactly the author's entries |
| `Threads.StepKeepsReplies` | handlers/comments.go:231-246 | a step leaves a replied-to text alone or wipes it |
| `Threads.RepliedTextFixed` | handlers/comments.go:236-246 | once a reply exists the text it answers stays what it was or is wiped, over every run |
| `Threads.GoneForGood` | db/queries.sql.go:5781-5785 | an id that is gone is never handed out again |
| `Feed.GraphStore.StartFollow` | handlers/graph.go:53-130 | refused for a missing profile, oneself or a block either way; answers the stored state, an existing row winning |
| `Feed.GraphStore.StopFollow` | handlers/graph.go:133-161 | exactly the one follow goes |
| `Feed.GraphStore.Approve` | handlers/graph.go:255-296 | accepting activates a pending follow, declining deletes it; notified exactly on a change to active |
| `Feed.GraphStore.SetRelationship` | handlers/social.go:535-588 | a block deletes the follows in both directions; the four mutations are idempotent |
| `Feed.GraphStore.EraseUser` | handlers/social.go:709-795 | the profile, follows, blocks and mutes touching the user are gone |
| `Feed.GraphStore.ReadFeed` | handlers/graph.go:299-325 | a page of the query, at most fifty entries; with the invariant below nobody blocked is named in it |
| `Feed.StepKeepsGood` | handlers/social.go:566-578 | every event keeps follows away from blocked pairs, and between two joined users |
| `Feed.RunKeepsGood` | handlers/social.go:535-588 | no reachable state holds a block and a follow between the same two users |
| `Feed.BlockStands` | handlers/social.go:579-583 | a block stands until its author lifts it or one of the two is erased |
| `Feed.ActiveOnlyByApproval` | db/queries.sql.go:72-75 | while followers need approval, a follow becomes active only by the followee's own answer |
| `Feed.FilterIsRedundant` | db/queries.sql.go:2384-2495 | given that invariant the feed equals the feed with an either-way block filter on everyone named |
| `Feed.FilterIsNeededOtherwise` | db/queries.sql.go:2384-2393 | without it one stray follow shows a blocked user |
| `Feed.FeedsAgree` | db/queries.sql.go:2384-2495 | in every run, for every viewer, cursor and limit, the query and the filtered query allow the same pages |
| `Feed.BlockHidesBoth` | handlers/social.go:535-588 | once blocked, neither is named in the other's feed until the block is lifted |
| `Feed.FirstOfSorted` | db/queries.sql.go:2489-2494 | the first rows of any sorted listing are a page: each once, in order, and nothing left out comes before |
| `FeedOutcomes.ShownIff` | db/queries.sql.go:2384-2488 | exactly what a feed shows: arrivals, follows and doings of active, unmuted followees, as far as their settings and the kind of row allow |
| `FeedOutcomes.EntryFacts` | db/queries.sql.go:2394-2488 | the actor, time and kind of every entry |
| `FeedOutcomes.CursorCuts` | db/queries.sql.go:2491-2492 | a cursor cuts off everything from its own millisecond on |
| `FeedOutcomes.PageIsNewest` | db/queries.sql.go:2493-2494 | a page holds the newest entries, newest first, then by actor and kind; a short page holds all |
| `FeedOutcomes.FollowOutcome` | handlers/graph.go:53-130 | a follow needs two profiles and no block, is pending exactly if the target approves followers, and never overwrites |
| `FeedOutcomes.UnfollowOutcome` | handlers/graph.go:133-161 | exactly the one follow goes |
| `FeedOutcomes.AnswerOutcome` | handlers/graph.go:255-296 | the followee activates a pending request or deletes the follow |
| `FeedOutcomes.RelateOutcome` | handlers/social.go:535-588 | the four mutations; a block also deletes the follows in both directions |
| `FeedOutcomes.EraseOutcome` | handlers/social.go:709-795 | nothing of the user is left in the graph and nothing else is gone |
| `Feed.NoNewCrossing` | handlers/social.go:566-578 | no handler as a whole brings about a follow across a block |
| `FeedRaces.UndisturbedFollow` | handlers/graph.go:82-130 | a follow is its check followed by its insert |
| `FeedRaces.UndisturbedBlock` | handlers/social.go:561-578 | a block is its insert followed by two deletions |
| `FeedRaces.AwaitingIff` | handlers/social.go:561-578 | under all races every follow across a block awaits its deletion if and only if no insert comes after the deletions of a block its check did not see |
| `FeedRaces.FeedsAgreeOnTime` | db/queries.sql.go:2384-2495 | on such a run, whenever no block is midway, the feed equals the feed with an explicit block filter |
| `FeedRaces.HiddenOnceSevered` | db/queries.sql.go:2384-2495 | for one pair it is enough that no block between the two is midway |
| `FeedRaces.LateFollowShows` | handlers/graph.go:69-106 | a follow inserted too late shows a user in the feed of somebody they block |
| `Runs.AlwaysGoodIff` | handlers/groups.go:182-373 | if single steps break a property exactly when they are late, it holds throughout a run exactly when none is |
| `Folders.Repair` | handlers/folders.go:222-305 | the whole repair: assignment by single mentions, merging, cap and sorting, at most eight folders, every podcast in exactly one |
| `Folders.ReadGroup` | handlers/folders.go:248-257 | one group's podcasts: first mention assigned, any further one marked duplicate |
| `Folders.SettleName` | handlers/folders.go:238-247 | a group's name is the spelling of a group with its folded name that no other such group is sorted before, or the fallback when blank |
| `Folders.BlankSpellsFallback` | handlers/folders.go:233-247 | next to a blank group, every spelling of the fallback name becomes the fallback itself |
| `Folders.ReadSuggestion` | handlers/folders.go:229-258 | after all groups, a podcast is assigned and unmarked exactly when mentioned once overall |
| `Folders.Distribute` | handlers/folders.go:259-266 | each folder lists its podcasts as often as submitted, in a partition |
| `Folders.MergeSmall` | handlers/folders.go:267-272 | in any order of visits, exactly the folders of fewer than two are emptied into the fallback |
| `Folders.RankFolders` | handlers/folders.go:278-289 | the folders other than the fallback, each once, larger first and then by name |
| `Folders.MergeRest` | handlers/folders.go:290-299 | exactly the folders beyond the first seven are emptied into the fallback |
| `Folders.CapFolders` | handlers/folders.go:273-300 | all sound folders are kept if at most eight are listed, otherwise the seven that rank first |
| `Folders.SortMembers` | handlers/folders.go:301-303 | every folder's list is sorted and a permutation of what it was |
| `Folders.ReadingAssigns` | handlers/folders.go:259-264 | what the reading loops remember is the specified assignment |
| `Folders.FirstSevenKept` | handlers/folders.go:290-293 | the first seven of the ranking are what the specification keeps |
| `Folders.RepairConserves` | handlers/folders.go:222-305 | every submitted podcast sits in one folder as often as submitted, and no other appears |
| `Folders.RepairCaps` | handlers/folders.go:267-300 | at most eight folders, and at least two members outside the fallback |
| `Folders.RepairTrustsOnlySingleMentions` | handlers/folders.go:248-264 | a podcast outside the fallback was named exactly once in the whole suggestion, under that name |
| `Folders.RepairHonoursSingleMentions` | handlers/folders.go:248-300 | a podcast named exactly once is in the folder of that name if it was kept, otherwise in the fallback |
| `Folders.LargestKept` | handlers/folders.go:284-293 | a dropped folder has no more submissions than a kept one, and comes later by name if equally many |
| `Folders.NothingDroppedInVain` | handlers/folders.go:267-300 | a folder of two or more is dropped only if more than eight would remain, and then seven are kept |
| `Artwork.BlurAlpha` | handlers/default_artwork.go:164-205 | both passes: every pixel is the direct windowed mean of the column of direct windowed row means, for every size and radius; a radius below one returns the source |
| `Artwork.BlurRow` | handlers/default_artwork.go:170-186 | the running sum of a row equals the direct sum at every pixel; other rows are untouched |
| `Artwork.BlurColumn` | handlers/default_artwork.go:187-203 | the same for a column |
| `Artwork.SlideWindow` | handlers/default_artwork.go:179-184 | dropping the left and adding the right pixel gives the next window's sum |
| `Artwork.SumBounds` | handlers/default_artwork.go:171-178 | a window's sum is at most 255 times its length, so the mean fits a byte |
| `Artwork.UniformMean` | handlers/default_artwork.go:164-205 | a uniform area keeps its value and an empty one stays empty |
| `Artwork.SumOfOne` | handlers/default_artwork.go:171-184 | one pixel changes the sum of the windows that hold it by exactly its change |
| `Artwork.MixMeans` | handlers/default_artwork.go:215-219 | the weighted mean rounded down: full weight gives the top colour, none the base |
| `Artwork.CompositedMeans` | handlers/default_artwork.go:210-220 | on the channels: nothing where the weight rounds to zero, otherwise opaque and each channel blended with its own |
| `Artwork.MixBounds` | handlers/default_artwork.go:215-219 | the weighted sum stays below 65536, and the blend lies between the two colours |
| `Artwork.Blend` | handlers/default_artwork.go:215-219 | the 16-bit computation equals the exact blend: nothing overflows |
| `Artwork.CompositePixel` | handlers/default_artwork.go:210-220 | one pixel, in 16-bit arithmetic, is the specified composite; weight zero leaves it alone |
| `Artwork.CompositeAlpha` | handlers/default_artwork.go:207-223 | exactly the pixels under the mask are composited, once each |
| `Avatar.OrientJpeg` | handlers/avatar.go:243-277 | every output pixel is the source pixel its orientation names, for every size; other orientations return the source |
| `Avatar.TargetBijective` | handlers/avatar.go:254-274 | the pixel map is a bijection: every output pixel is written from exactly one source pixel |
| `Avatar.UndoTarget` | handlers/avatar.go:257-272 | orientations 6 and 8 undo each other and the other five undo themselves |
| `Avatar.Corners` | handlers/avatar.go:257-272 | where the corners go under each orientation, 6 turning clockwise and 8 counter-clockwise |
| `Avatar.Rigid` | handlers/avatar.go:257-272 | a step to the right or down is the same step in the output everywhere |
| `Avatar.OrientThereAndBack` | handlers/avatar.go:243-277 | orienting and orienting back gives the source image, for every size |

## Left out

- Routing, request and response formats, metrics, logging, push notifications, templates: plumbing without state of its own.
- Races inside the comment and post handlers, and between reads of one handler: a check is one step. Comment handlers are one step each.
- Database isolation below transactions, and failures of the database or of Redis: a failed call changes nothing here. A missing Redis client, which refuses the call, is not modelled.
- Clearing the listening history (`DeleteHistoryBefore`) and the sync service that calls these statements: the history theorems are about upserts, tombstones and trims.
- URL validation and canonicalization of submitted feeds: the dispatcher starts from the canonical URL.
- Parsing of JPEG and TIFF headers (`jpegOrientation`, `tiffOrientation`): the orientation is an input.
- Drawing, scaling and encoding of images, colour extraction and ranking code: floating point or foreign libraries.
- Choice of language in `GetActiveCorpusRelease`, listing and rejecting candidates, the method for derived candidates (they are an event), the legacy import and the audit log: easier members of the same tables.
- Handles: claiming, reservation and tombstoning.
- Content columns of feed items: an item is named by the row it comes from; titles and excerpts are not modelled.
- Lists, reviews, milestones, ratings, statistics, digests and the semaphore of the group-post fan-out: easier members of patterns already covered.
- Cryptography: X.509, CBOR, ECDSA, bcrypt, JWT. Sweeping of expired challenges is not an event; an expired challenge is refused either way.
- Expiry of access tokens, and the credential rate limits around the token endpoints.
- Groups.GroupStore.CreateGroup: states the new state, not the HTTP answer; the same holds for JoinGroup, LeaveGroup, InviteToGroup, RespondToInvite and KickFromGroup, whose refusals are seen as an unchanged state.
- Ingestion.Dispatcher.Offer: when both sending and cancellation are ready, Go chooses at random; the choice is a parameter, here and in TakeJob.
- Feed.GraphStore.EraseUser: the part of erasure that touches the follow graph; groups and threads have their own.
