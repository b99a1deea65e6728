# A verified model of the PEvO backend's trust, reputation and delivery cores

PEvO keeps its records on a public chain and derives everything else from them. This
project models the parts of its backend where a comment in the source states an
invariant, and proves the invariant in Dafny:

- **Trust state from an append-only log.** Accreditation, sanctions and vouches; the
  continuation walk over a paper's versions; consented authorship in its two
  implementations; authorship claims; the credit arms of the reputation cycle. A query is
  a set comprehension with ranking; it is compared with a one-pass replay in chain order.
- **Reputation.** The score of one cycle over reals, and the crash-safe catch-up loop that
  stages, swaps, prunes and stamps, with every Redis write a possible stopping point.
- **The query cache.** Single-flight fetches, per-tier epochs and multi-round sweeps as
  interleaved steps, and the cache object whose methods make those steps.
- **The bridge queue and its worker.** Rows updated in place, enqueue transactions at READ
  COMMITTED, leases, timeouts, crashes, purges and the chain.
- **Notifications and the digest.** The capped window and the cursor over many runs.
- **Account tokens.** The batch-halving claim loop.

`dafny verify dfyconfig.toml` checks everything.

| file | models |
|---|---|
| `Prelude.dfy`, `ChainLog.dfy` | shared vocabulary: options, sums over sets, operations, ranked rows |
| `Accreditation.dfy` | `activeAccreditationsCteBody`, `readSanctionState`, web-of-trust enrolment |
| `ContinuationChain.dfy` | `consentChainCteBody`, `resolveContinuationChain` |
| `Consent.dfy`, `ConsentQuery.dfy`, `ConsentInWords.dfy` | `consent-ops.ts`; `consentedAuthorsCteBody`, `consentSeedCteBody`; both read off the log |
| `Claims.dfy`, `Credit.dfy` | `authorshipClaimsCteBody`; the three arms of `user_papers` |
| `ReputationScore.dfy`, `ReputationEffects.dfy`, `ReputationBatch.dfy` | `reputation.ts`: the score; what one vote, review or month does to it; `reputation-batch.ts` |
| `QueryCache.dfy`, `CacheFreshness.dfy`, `CacheStable.dfy`, `CacheHistory.dfy`, `CacheObject.dfy` | `cache.ts`: steps and invariant; freshness and single flight over runs; the stable tier over runs; freshness told by the steps alone; the object |
| `BridgeQueue.dfy`, `BridgeWorker.dfy`, `BridgeRuns.dfy`, `BridgeRecovery.dfy`, `BridgeObject.dfy` | `bridge-queue.ts` and `bridge-worker.ts`: rows; the interleaved machine; theorems over runs; recovery; the queue and worker objects |
| `Notifications.dfy`, `Digest.dfy` | `notification-queries.ts`; `digest.ts` |
| `AccountClaims.dfy` | `account-creation.ts` |

## What turned out not to hold

Each of these is proved, with the exact condition under which the promise does hold.

- The in-process chain walker is described as the twin of the query's walk. It ranks by
  block alone, so on continuations of one block it may take either, and it stops at a
  visited post where the query goes on, which a root that points back into its own chain
  causes: `WalkersAgreeIff`, `WalkersCanDisagree`, `TieCanMislead`.
- The bounded seed of the consent walk does not ask that a cited post continue nothing, as
  walking from all roots does: `SeedAgreesIffRoot`, `SeedAdmitsContinuations`.
- `readSanctionState` compares blocks only and still reports a sanction lifted in its own
  block: `SanctionReadAgreesIff`, `SanctionReadCanDiffer`.
- `sanitizeReputationWeights` leaves the paper, review and bonus weights free to be
  negative. A negative paper weight turns every paper into a fixed gain:
  `PaperScoreBoundedIff`, `NegativePaperWeightIgnoresVotes`. A seed of a negative bonus
  makes the first cycle of every run that reads it fail on a square root; one that lands
  in a run already scoring is overwritten instead: `NegativeSeedStopsScoring`,
  `OneSeedStopsEveryCycle`.
- The batch loop stamps a new calc version when none of that version's cycles has elapsed,
  over scores it never computed, and then counts as up to date; the stamp is safe only
  where nothing was stored: `EmptyStampIsSoundIff`,
  `LongerCyclesFreezeOldScores`. A version that comes back after a cut-off replay under
  another one is believed too: `ReturningVersionIsSoundIff`, `ReturningVersionCanLie`. A
  failed read of the previous scores passes for an empty map, and the next cycle is scored
  from that: `RunBatchComputation`, `SwallowedReadIsFaithfulIff`, `SwallowedReadCanCorrupt`.
- Block ticks are to leave stable entries alone. The list of stable keys lives in the
  process: a restart loses it while the entries survive, and `clear` ends by emptying it,
  also of an entry written while it sweeps. The next tick deletes what is off the list:
  `TrackKeptIff`, `FilterDoomsExactlyLost`, `RestartCanForget`, `ClearCanForget`.
- The second stale-while-revalidate write asks no gate: `CaughtFetchRevivesStale`.
- A fetcher that throws synchronously instead of returning a promise blocks its key until a
  restart, the one outcome that does: its `finally` runs before the slot is set. The class
  accepts such a function; the repository's callers pass functions that return promises:
  `BlockedIffThrew`, `ThrowingFetcherBlocksItsKey`.
- `mark*` and `rescheduleForRetry` do not look at the row's state. A completion write that
  is applied and still throws is followed by a reschedule that brings the row back, unless
  the unique index refuses it because the permlink has become active again. A row brought
  back can take its user past the cap, and it takes back the stored success the cooldown is
  seeded from: `TerminalRowsAreFinal`, `ReactivationBreaksCapIff`,
  `UnheardCompletionExceedsCap`, `UnheardCompletionForgets`. A worker whose start-up read
  fails forgets the cooldown: `UnseededRestartForgets`.
- A process that restarts while a timed-out broadcast may still land can send its entry
  again before it does, and the permlink lands twice: `LandsAtMostOnce`,
  `RestartCanLandTwice`.
- Without a mail host the digest moves its cursor past events it never sent:
  `CursorPassesOnlySentIff`.
- The queue position is documented as a dispatch rank. It counts by id while dispatch goes
  by scheduled time first: `PositionIsRankIff`, `SecondInPositionGoesFirst`.
- The cache header says two concurrent misses may both fetch. The in-flight check and set
  run with no await between them, so they cannot: `SingleFlight`.

## Model

| member | source | states |
|---|---|---|
| Accreditation.MembershipEqualsReplay | backend/src/hafsql.ts:159-314 | The ranked query's membership and suppression of every account equal a one-pass replay of accredits, revokes, sanctions, vouches and threshold updates |
| Accreditation.UnauthorizedOpsAreInert | backend/src/hafsql.ts:159-314 | An accredit, revoke or parameter update that no authority signed, and a vouch or retraction its voucher did not sign, changes nobody's membership or sanction, now or later |
| Accreditation.AuthorizedOpsCount | backend/src/hafsql.ts:159-314 | Signed by an authority and last, an accredit other than by vouches makes a member, a sanction ends membership, and a threshold counts if it is a whole number from 1 up, as 3 otherwise |
| Accreditation.OnlyAuthorityAccreditLifts | backend/src/hafsql.ts:204-236 | After a sanction an account stays suppressed, and no member, until and only until an authority accredits it other than by the web of trust |
| Accreditation.LegacyRevokeIsInert | backend/src/hafsql.ts:213-236 | A revoke that is not a sanction changes nobody's membership, now or later |
| Accreditation.RetractThenRevouchRestores | backend/src/hafsql.ts:257-314 | Retracting a vouch and vouching again restores every standing without a new accredit operation |
| Accreditation.MaxBlock | backend/src/accreditation.ts:184-218 | The aggregate over no rows is null and otherwise the greatest block among them |
| Accreditation.SanctionReadAgreesIff | backend/src/accreditation.ts:184-218 | Every suppressed account reads as sanctioned, and the read departs from the query exactly when the account was lifted in the block of its sanction |
| Accreditation.SanctionReadCanDiffer | backend/src/accreditation.ts:184-218 | A log on which a member reads as sanctioned |
| Accreditation.EligibilityIsTheWotArm | backend/src/wot.ts:209-226 | The snapshot's eligibility flag is the membership query's web-of-trust arm |
| Accreditation.EnrolmentAddsAMember | backend/src/wot.ts:300-325 | An account the guards admit never held an accredit operation, becomes a member, and costs nobody else membership |
| Accreditation.BroadcastWotAccreditation | backend/src/wot.ts:300-359 | With fresh reads it never targets a suppressed or pinned account, broadcasts exactly when all guards pass, and says what each outcome leaves on chain |
| ContinuationChain.ChainTreeIsAllAdmittedPaths | backend/src/hafsql.ts:1416-1445 | The recursive rows are exactly the paths whose every hop the author-consent gate admits against its own prefix |
| ContinuationChain.RowsInWords | backend/src/hafsql.ts:1416-1445 | A row is a path of papers from a seed of at most 50 hops, each naming the one before, none twice, each by an account an earlier post of the path names |
| ContinuationChain.WalkIsFinite | backend/src/hafsql.ts:1416-1445 | An admitted path visits each post at most once and is bounded by the corpus and the hop cap, although pointers may form cycles |
| ContinuationChain.OnePathPerNode | backend/src/hafsql.ts:1416-1445 | A node is reached by one path per root |
| ContinuationChain.ChainTreeIsLinear | backend/src/hafsql.ts:1386-1390 | Per root the recursion yields no more rows than there are posts |
| ContinuationChain.CanonicalChainIsTheWalk | backend/src/hafsql.ts:1461-1480 | Joining rank-1 siblings to parents by node derives exactly the prefixes of the earliest-first walk, whatever else is seeded |
| ContinuationChain.CanonicalAuthorsAreNamedByPrefix | backend/src/hafsql.ts:1430-1445 | Each continuation on the canonical chain is by an account the chain before it names |
| ContinuationChain.LaterPostsOnlyExtend | backend/src/hafsql.ts:1446-1480 | Posts created later only extend a canonical chain |
| ContinuationChain.ResolveContinuationChain | backend/src/lib/chain-walkers.ts:224-445 | Every hop of the in-process loop takes an admissible candidate of the least creation block; uninterrupted it stops only without candidates, at a visited one or at the hop cap; interrupted before any hop it returns the chain so far; it is undegraded exactly when it ran out of candidates |
| ContinuationChain.VisitedCandidateIsRoot | backend/src/lib/chain-walkers.ts:224-445 | A candidate already on the chain can only be its root |
| ContinuationChain.WalkersAgreeIff | backend/src/lib/chain-walkers.ts:224-445 | Every uninterrupted run of the loop resolves the query's walk exactly when no two admissible continuations of a node of that walk share the least block and the root's own pointer does not cut it |
| ContinuationChain.WalkersAgreeOnRoots | backend/src/lib/chain-walkers.ts:224-445 | On a root that continues nothing they agree exactly when there is no such tie |
| ContinuationChain.WalkersCanDisagree | backend/src/lib/chain-walkers.ts:224-445 | A looped corpus on which every run of the loop stops before the query does |
| ContinuationChain.TieCanMislead | backend/src/lib/chain-walkers.ts:337-358 | A corpus with two continuations of one block on which the loop may return either, and the query returns one |
| ContinuationChain.AuthorIndexIsPosition | backend/src/hafsql.ts:1498-1505 | The ranked author index of a slot is its position in the first-occurrence author union |
| ContinuationChain.LaterPostsKeepAuthorIndexes | backend/src/hafsql.ts:1481-1505 | Later posts never renumber a slot |
| Consent.LatestOpDecides | backend/src/consent-ops.ts:328-343 | Whether the latest valid operation accepts is decided by the latest operation alone |
| Consent.ConsentEqualsReplay | backend/src/consent-ops.ts:300-348 | The consented set equals a replay of accepts and resigns in chain order |
| ConsentInWords.ProcessInWords | backend/src/consent-ops.ts:300-348 | The root's account consents exactly when a slot names it, another exactly when it accepted after a slot naming it appeared and signed nothing but accepts since |
| Consent.SlotsAnchoring | backend/src/consent-ops.ts:265-275 | Exactly the slots that anchor the signer |
| Consent.SortDescending | backend/src/consent-ops.ts:248-254 | The same operations, none before one ranked after it |
| Consent.ComputeConsentedAuthors | backend/src/consent-ops.ts:300-348 | Whatever the order of the operations, the returned set is the one the query over them describes |
| Consent.EligibleIffAnchored | backend/src/consent-ops.ts:368-379 | The accounts let through to the query are exactly the anchored ones |
| Consent.SignerPushdownKeepsAnswer | backend/src/consent-ops.ts:177-200 | Filtering by eligible signer changes nobody's consent |
| Consent.TruncationDropsOnlyAbsentSigners | backend/src/consent-ops.ts:185-200 | Cutting to the newest rows by id is exact for the root and for every signer with a row left, drops the others, and is no cut within the limit |
| Consent.NewestSelected | backend/src/consent-ops.ts:185-200 | The query returns all matching rows, or the limit's worth with the highest ids |
| Consent.FetchConsentOpsForPaper | backend/src/consent-ops.ts:162-242 | Unavailable exactly when there is no pool or a needed query fails, and otherwise the newest eligible rows |
| Consent.GetConsentedAuthors | backend/src/consent-ops.ts:362-400 | Fails closed; otherwise answers for the whole history except signers all of whose rows lie below the cut |
| ConsentQuery.GroupsAreAnchors | backend/src/hafsql.ts:1624-1648 | Grouping slots first and taking the least group gives the per-slot anchors and first block |
| ConsentQuery.ScopedRowsAreFilteredRows | backend/src/hafsql.ts:1591-1687 | The rows under a signer scope are the unscoped rows of those signers |
| ConsentQuery.Route2IsLastSignal | backend/src/hafsql.ts:1649-1683 | Route 2 is the last valid accept, resign or revoke in chain order |
| ConsentInWords.Route2InWords | backend/src/hafsql.ts:1591-1683 | An account is consented by Route 2 exactly when it accepted after a slot naming it appeared (by ORCID on native papers only) and has neither resigned nor been properly revoked since |
| ConsentInWords.Route1InWords | backend/src/hafsql.ts:1667-1683 | By Route 1 only the poster consents, named by a slot or as the bridge, unless it has an anchor and resigned or was properly revoked without accepting again |
| ConsentQuery.TwinsAgreeIff | backend/src/hafsql.ts:1649-1683 | On a native paper, for every account but the broadcaster, the database and the process agree exactly up to a properly signed revoke that came last, and always when there is none |
| ConsentQuery.MoreSlotsKeepRoute2 | backend/src/hafsql.ts:1506-1523 | Naming an account in more slots never costs it consent |
| ConsentQuery.SlotsFollowTheWalk | backend/src/hafsql.ts:1506-1512 | The slots a root collects are those of its own canonical chain, whatever else is walked |
| ConsentQuery.SeedAgreesIffRoot | backend/src/hafsql.ts:1728-1768 | For every scope of the seed, walking from cited papers loses no consented account and adds one only on a post that continues another |
| ConsentQuery.SeedAdmitsContinuations | backend/src/hafsql.ts:1411-1413 | A corpus on which it does add one |
| Claims.StatusIsLastAnswer | backend/src/hafsql.ts:1200-1274 | The status CASE equals the last properly signed answer after the claim, an approval beating a revocation of its own block, accepted only on a name-only slot |
| Claims.UnauthorizedAnswersAreInert | backend/src/hafsql.ts:1200-1274 | An approval by neither the poster nor the bridge, a revocation by none of these, the admin or the claimer, and an answer to another claim change no status |
| Claims.AuthorizedAnswersCount | backend/src/hafsql.ts:1200-1274 | Coming last, a proper approval accepts a claim on a name-only slot of the author union, and a proper revocation in a later block revokes |
| Claims.StaleOrImproperIsInert | backend/src/hafsql.ts:1200-1274 | Operations that are improperly signed, precede the claim or answer another one change nothing |
| Claims.AcceptedClaimsSurviveGrowth | backend/src/hafsql.ts:1247-1271 | Later posts never take an accepted claim away |
| Claims.ScopeIsFilter | backend/src/hafsql.ts:1100-1183 | Under each scope the builder returns the unscoped rows of that scope with the same statuses |
| Credit.BatchSeedKeepsStreams | backend/src/reputation.ts:819-831 | The batch seed shows each target user's full operation stream on a paper |
| Credit.CreditedExactlyOnce | backend/src/reputation.ts:855-917 | A recipient gets one row for a paper if Routes 1, 2 or 3 credit it and none otherwise, under the batch's seeds and scopes |
| ReputationScore.SanitizeReputationWeights | backend/src/reputation.ts:397-413 | Exactly the numeric fields, each moved to the nearest value of its domain |
| ReputationScore.LoadReputationWeights | backend/src/reputation.ts:426-479 | The weights in force are complete and in their domains, and each is the payload's nearest value or the default, given in figures |
| ReputationScore.CanonicalSeesOnlyWeights | backend/src/reputation.ts:523-529 | Two weight objects are hashed from the same text exactly when they hold the same fields and values |
| ReputationScore.VotesEqualReplay | backend/src/reputation.ts:967-979 | A voter's vote is the last signal it sent, malformed ones included |
| ReputationScore.VoterWeight | backend/src/reputation.ts:761-774 | Every weight lies in [0,1], is 1 without a previous score and at least 0.4 for an active author |
| ReputationScore.VoterWeightCurve | backend/src/reputation.ts:761-774 | From the square root's own law: 0 (0.4 for an active author) at score 0, 0.5 (0.7) at 25, 1 from 100 on, and never lower for a higher score |
| ReputationScore.Decay | backend/src/hafsql.ts:1996-2004 | The multiplier lies between the floor and 1 and is 1 within the grace period |
| ReputationScore.DecayIsMonotone | backend/src/hafsql.ts:1996-2004 | Ageing never raises it |
| ReputationEffects.DecayTakesTheRate | backend/src/hafsql.ts:1996-2004 | Past the grace period every month takes the rate, down to the floor |
| ReputationScore.Quality | backend/src/reputation.ts:1072-1128 | The review factor lies in [0.2,1] |
| ReputationEffects.QualityIsTheMean | backend/src/reputation.ts:1072-1128 | It is the mean of four stars out of five over the reviews that may judge: one more enters the mean, any other changes nothing, none gives 1 |
| ReputationEffects.FirstVoteAdds | backend/src/reputation.ts:1130-1137 | A first vote adds its voter's weight times the vote to its own side and nothing to the other; one that may not count adds nothing |
| ReputationEffects.RaisedVoteNeverLowersPaper | backend/src/reputation.ts:1130-1158 | Raising any one account's vote on a paper, from whatever it was, never lowers the paper's score |
| ReputationEffects.FirstVotePullsItsWay | backend/src/reputation.ts:1130-1158 | A first upvote never lowers a paper's score and a first downvote never raises it |
| ReputationEffects.RaisedVoteNeverLowersReview | backend/src/reputation.ts:1243-1263 | The same of a review's score |
| ReputationEffects.RaisedVoteNeverLowersCitation | backend/src/reputation.ts:1357-1430 | The same of the value of a citation in the paper voted on |
| ReputationEffects.OnlyVoteOnPaper | backend/src/reputation.ts:1139-1158 | What the one vote of an unscored account is worth on a paper: its share of a full vote up to the paper weight times the quality, or times the downvote weight against it, times the decay |
| ReputationEffects.OnlyVoteOnReview | backend/src/reputation.ts:1253-1263 | And on a review |
| ReputationEffects.OnlyVoteOnCitation | backend/src/reputation.ts:1417-1430 | And on a citing paper, whose citation a full upvote makes worth its whole weight and a downvote nothing |
| ReputationScore.PaperScoreBoundedIff | backend/src/reputation.ts:1139-1158 | A paper score lies within the paper weight exactly when that weight is not negative |
| ReputationScore.NegativePaperWeightIgnoresVotes | backend/src/reputation.ts:1139-1158 | Under a negative weight every paper earns the same amount |
| ReputationScore.ReviewScoreBoundedIff | backend/src/reputation.ts:1253-1263 | The same bound for reviews |
| ReputationScore.CitationValueBounded | backend/src/reputation.ts:1417-1430 | A citation is worth between nothing and its weight, however often the citing paper lists the user |
| ReputationScore.CreditedAccountsAreInert | backend/src/reputation.ts:980-1067 | Accounts barred from judging a paper cannot move its score by votes or reviews |
| ReputationScore.UserScore | backend/src/reputation.ts:1432-1458 | Every total lies in [0,100] |
| ReputationEffects.UserScoreGrows | backend/src/reputation.ts:1432-1458 | A user's total never falls when papers, reviews or citations rise in worth |
| ReputationEffects.SmallTotals | backend/src/reputation.ts:1432-1458 | A user with nothing has the rounded and clamped bonus; with one paper, review and citation their worth is added, the citation within its maximum |
| ReputationEffects.RoundsToTenths | backend/src/reputation.ts:1450 | Rounding goes to the nearest tenth, halves away from zero |
| ReputationScore.RunCycle | backend/src/reputation.ts:609-705 | A cycle succeeds exactly when no accredited account's previous score is negative, and then scores every accredited account within [0,100] |
| ReputationEffects.RaisedVoteInCycle | backend/src/reputation.ts:609-705 | Raising one account's vote on a user's paper never lowers that user's score in the cycle and moves nobody else's |
| ReputationEffects.OneVoteInFigures | backend/src/reputation.ts:609-705 | Under the default weights one full upvote turns 5 points into 6 and one full downvote into 3 |
| ReputationScore.EveryCycleIsDefined | backend/src/reputation.ts:761-774 | Over every history of runs, seeds and removals without a negative bonus, every cycle's square roots are defined and no stored score is negative |
| ReputationScore.NegativeScoresAreSeeds | backend/src/reputation.ts:216-245 | A stored score is negative exactly while a seed put it there and neither a removal nor a cycle that counts the account has replaced it |
| ReputationScore.NegativeSeedStopsScoring | backend/src/reputation-batch.ts:392-533 | Over every history, a cycle fails exactly when it is the first of a run that read the stored scores while a negative seed of an account it counts was still among them |
| ReputationScore.OneSeedStopsEveryCycle | backend/src/reputation.ts:216-245 | After one such seed between runs every later cycle fails, until the account is dropped or a run starts from nothing |
| ReputationBatch.OnlyElapsedCyclesEnd | backend/src/reputation-batch.ts:412-435 | A cycle's end lies beyond the head exactly from the cycle in progress on |
| ReputationBatch.SwapIsFaithful | backend/src/lib/redis-scripts.ts:111-128 | After the swap the cursor stands at the cycle, everybody indexed stays indexed, and production is the replay's exactly if the carried scores make that cycle come out as in the replay |
| ReputationBatch.ReadBackResumes | backend/src/reputation.ts:322-374 | Stored scores read back are the scores memory would have carried |
| ReputationBatch.BatchRunner.DeleteScores | backend/src/reputation-batch.ts:224-256 | Exactly the deletes that do not fail are applied, and they touch no accredited account |
| ReputationBatch.BatchRunner.PruneDeAccreditedMembers | backend/src/reputation-batch.ts:224-256 | Exactly the commands that arrive and do not fail are applied: in full, nothing of indexed accounts outside the accredited set is left; in any part, nobody accredited is disturbed |
| ReputationBatch.BatchRunner.GetBatchReputationMap | backend/src/reputation.ts:322-359 | Reads the indexed scores, or all when there is no index, which it then backfills; a failed read is swallowed into an empty map |
| ReputationBatch.BatchRunner.StageScores | backend/src/reputation-batch.ts:478-508 | All but the commands that fail are staged, and it reports success exactly if none of them does |
| ReputationBatch.BatchRunner.ScoreCycle | backend/src/reputation-batch.ts:443-545 | With other requests between its writes, a cycle that nothing stops reaches production whole and is pruned after, or the cursor stays, and what it stores is the replay's exactly when the carried scores were in step |
| ReputationBatch.BatchRunner.CatchUp | backend/src/reputation-batch.ts:400-556 | From scores in step the loop keeps production equal to the replay up to the cursor; it passes every elapsed cycle up to the first at which something stops it, and ends as reached only at the cycle in progress |
| ReputationBatch.BatchRunner.RunBatchComputation | backend/src/reputation-batch.ts:269-579 | With HAF, Redis and the lock, every finished cycle before the first fault is scored, and a run without faults leaves its stamp in force over faithful scores; without them Redis is untouched. At every write readers see the scores found or one whole cycle and a truthful stamp stays truthful, when the run may stamp safely and swallowed no read that mattered; a run that did stores a first cycle that is the replay's only if it comes out the same without previous scores |
| ReputationBatch.StampedScoresAreTheReplay | backend/src/reputation-batch.ts:345-397 | Over any sequence of finished or cut-off runs under versions that do not come back, none stamping or reading unsafely, a stamp that matches the running version means stored scores equal the crash-free replay |
| ReputationBatch.ReturningVersionIsSoundIff | backend/src/reputation-batch.ts:345-397 | After a cut-off replay under another version the old stamp is true exactly if both versions score those cycles alike, and whatever they compute only if they are one version or nobody is accredited |
| ReputationBatch.EmptyStampIsSoundIff | backend/src/reputation-batch.ts:551-562 | The stamp a run leaves when no cycle of its version has elapsed is true for every scoring function exactly when nothing was stored or nobody is accredited |
| ReputationBatch.SwallowedReadIsFaithfulIff | backend/src/reputation.ts:356-359 | A run that swallows a failed read and stores a cycle shows readers only whole cycles of the replay exactly when its first cycle comes out the same without previous scores, which holds for every scoring function only if nobody is accredited |
| ReputationBatch.SwallowedReadCanCorrupt | backend/src/reputation.ts:356-359 | A world and a stored state in which the cycle after a swallowed read stores wrong scores under a stamp that was true |
| ReputationBatch.ReturningVersionCanLie | backend/src/reputation-batch.ts:345-397 | A world in which a cut-off replay of another version leaves a false stamp |
| ReputationBatch.LongerCyclesFreezeOldScores | backend/src/reputation-batch.ts:345-372 | A longer cycle stamps the old scores and leaves them until its own cycles catch up with the old cursor |
| QueryCache.OpenGatePostdatesInvalidations | backend/src/cache.ts:200-217 | A fetch whose gate is open started after every bump that covers its key |
| QueryCache.StepKeepsValid | backend/src/cache.ts:181-538 | Every step of every fetch, sweep, expiry and restart keeps the epoch and sweep invariant |
| CacheFreshness.NothingStaleAfterInvalidation | backend/src/cache.ts:383-446 | After an invalidation returns, a covered fresh slot comes from a fetch that started after it began, and a covered stale slot too unless a fetch was caught between its two writes |
| CacheHistory.EntriesAreDated | backend/src/cache.ts:203-211 | Over every run each stored entry comes from a fetch of its key, and a stale one from a stale-while-revalidate path |
| CacheHistory.InvalidatedKeyIsFresh | backend/src/cache.ts:383-398 | Whatever stands in a key's fresh slot after invalidate was fetched by a later step |
| CacheHistory.SweptSlotsAreFresh | backend/src/cache.ts:415-513 | Whatever stands in a slot a sweep was to clear, by prefix of its name, by tier or as everything, was fetched by a step after the sweep began, except a stale slot whose fetch was between its writes then |
| CacheFreshness.NoPreInvalidationWrite | backend/src/cache.ts:200-217 | No fetch writes a fresh slot that a running or returned later invalidation covers |
| CacheFreshness.BumpShutsOut | backend/src/cache.ts:415-446 | A bump that covers a running fetch, the second one of a sweep included, closes its gate |
| CacheFreshness.ShutOutForGood | backend/src/cache.ts:200-217 | A closed gate stays closed: such a fetch never writes |
| CacheFreshness.SingleFlight | backend/src/cache.ts:188-226 | At most one fetcher per flight and one revalidation per key; the slot is held exactly while it runs or after a fetcher of the flight threw synchronously |
| CacheFreshness.EachKindAdmits | backend/src/cache.ts:188-321 | A fetch by getOrSet or the cold path may start exactly when none of its kind runs for the key and none threw synchronously, a revalidation exactly when none runs |
| CacheFreshness.OneFetchOfEachKind | backend/src/cache.ts:188-321 | None of these ever has two fetches of one key running |
| CacheFreshness.BlockedIffThrew | backend/src/cache.ts:202-226 | Over every run a slot is held with no fetch to free it exactly when a fetcher of the flight threw synchronously instead of returning a promise and no restart followed |
| CacheFreshness.ThrowingFetcherBlocksItsKey | backend/src/cache.ts:212-226 | Over every run, whatever fetches ended in, a flight admits a new fetch exactly when none of it is running and none of its fetchers threw synchronously since the last restart |
| CacheStable.TrackKeptIff | backend/src/cache.ts:137-150 | Every step keeps stored stable entries listed, except a restart over one and the end of a full clear with one stored or waiting to be filtered |
| CacheStable.TickSparesStable | backend/src/cache.ts:516-538 | Over every run a block tick shuts out no stable fetch, and deletes a stable entry only if its filter met the slot after a restart or a clear's end and before any fetch wrote it again |
| CacheStable.FilterDoomsExactlyLost | backend/src/cache.ts:516-533 | Over every run the tick's filter dooms a stable slot exactly when a restart or a clear's end met it stored or waiting and no fetch has written it since |
| CacheStable.TickCanDelete | backend/src/cache.ts:516-533 | From any state a tick can delete a stored entry that is off the list |
| CacheStable.ClearCanForget | backend/src/cache.ts:493-513 | A run after which the next tick deletes a stable entry written while a full clear swept |
| CacheStable.RestartCanForget | backend/src/cache.ts:88 | A run after which the next tick deletes a stable entry that outlived its process |
| CacheFreshness.CaughtFetchRevivesStale | backend/src/cache.ts:295-302 | A fetch caught between its writes can put pre-invalidation data into the stale slot before the sweep returns |
| CacheFreshness.FetchCanBeCaught | backend/src/cache.ts:295-302 | A run that gets there |
| CacheObject.Cache.GetOrSet | backend/src/cache.ts:181-227 | Joins the running flight or starts it, and nothing else |
| CacheObject.Cache.GetOrSetSWR | backend/src/cache.ts:251-321 | Serves stale data with at most one revalidation, or coalesces on the cold path |
| CacheObject.Cache.Settle | backend/src/cache.ts:203-211 | The gate check and the first write make one step of the model |
| CacheObject.Cache.Settled | backend/src/cache.ts:212-222 | The slot is free after every outcome |
| CacheObject.Cache.Invalidate | backend/src/cache.ts:383-398 | Both bumps and the delete make one step |
| CacheObject.Cache.BeginSweep | backend/src/cache.ts:415-428 | The first bump of a sweep |
| CacheObject.Cache.EndSweep | backend/src/cache.ts:493-513 | The second bump, and the end of the stable list for a full clear |
| BridgeQueue.BackoffLadder | backend/src/bridge-queue.ts:415-468 | A postponed entry waits 30 seconds doubled for every attempt after the first, 15 with none, never over 480, and fails instead exactly when the attempt to count exceeds the budget |
| BridgeQueue.PositionsAreRanks | backend/src/bridge-queue.ts:190-203 | Positions number the active rows one by one in id order |
| BridgeQueue.PositionIsRankIff | backend/src/bridge-queue.ts:190-203 | Positions are dispatch ranks for all active rows exactly when no older row is scheduled after a younger one |
| BridgeQueue.SecondInPositionGoesFirst | backend/src/bridge-queue.ts:309-320 | A postponed first entry lets the second in position go first |
| BridgeRuns.EnqueueRuns | backend/src/bridge-queue.ts:224-293 | An enqueue that nothing holds up is a run of the machine that adds one pending row |
| BridgeObject.Queue.TryEnqueueBridgeImport | backend/src/bridge-queue.ts:224-293 | It enqueues exactly when the user is below the cap and the permlink has no active row, keeps both, and makes the steps of one transaction of the machine |
| BridgeObject.Queue.LeaseNextEntry | backend/src/bridge-queue.ts:307-335 | Leases, for two minutes, the row scheduled first among those pending and due or with a lease that has run out, and answers none only when there are none |
| BridgeRecovery.CrashedEntryComesBack | backend/src/bridge-queue.ts:297-335 | After a crash in the middle of a dispatch, a start and five minutes, some entry can be dispatched, and this one exactly when no other that is due or has an expired lease comes before it |
| BridgeRecovery.NoActiveRowIsStuck | backend/src/bridge-queue.ts:297-335 | From every state any run reaches, every row that is pending or in progress can still be dispatched |
| BridgeObject.Queue.RescheduleForRetry | backend/src/bridge-queue.ts:424-486 | Back to pending, or failed exactly when a counted attempt exceeds the budget; refused exactly when the row would be active beside another of its permlink |
| BridgeObject.Queue.PurgeAgedTerminalEntries | backend/src/bridge-queue.ts:564-578 | Exactly the aged terminal rows go; active rows stay |
| BridgeRuns.PurgeTakesOldRows | backend/src/bridge-queue.ts:564-578 | The machine's purge takes exactly the rows completed or failed more than thirty days ago |
| BridgeRuns.ReactivationBreaksCapIff | backend/src/bridge-queue.ts:424-486 | A row brought back takes its user past the cap exactly when the user holds the cap's worth of others |
| BridgeRuns.RescheduleCanBeRefused | backend/migrations/010_bridge_import_queue.sql:87-89 | A run on which the unique index refuses to bring the row back, its permlink being active again |
| BridgeRuns.UnheardCompletionExceedsCap | backend/src/bridge-worker.ts:289-325 | A run from the empty system that ends with six active rows of one user |
| BridgeRuns.CapAndPermlinkHold | backend/src/bridge-queue.ts:224-293 | Over every interleaving each permlink has at most one active row and no row more than 6 attempts, and each user at most 5 active rows unless a row was brought back |
| BridgeRuns.OnlyUnheardReactivates | backend/src/bridge-worker.ts:289-325 | A run brings a terminal row back only after a completion write that was applied and threw |
| BridgeRuns.TerminalRowsAreFinal | backend/src/bridge-queue.ts:340-403 | A step changes a completed or failed row exactly when it is the reschedule, which the unique index lets through, after that row's completion was stored unheard |
| BridgeRuns.LandsAtMostOnce | backend/src/bridge-worker.ts:177-325 | If a broadcast lands, if at all, within less than the cooldown after it was sent, and no process starts before then, no permlink lands twice across timeouts, crashes, lost writes and re-leases |
| BridgeRuns.RestartCanLandTwice | backend/src/bridge-worker.ts:177-325 | A run on which a restart half a minute after a timeout lands a permlink twice |
| BridgeRuns.CooldownIsKept | backend/src/bridge-worker.ts:343-357 | A dispatch starts at least the cooldown after every success or timeout its process saw and, once seeded and unless a row was brought back, after every stored success |
| BridgeRuns.UnheardCompletionForgets | backend/src/bridge-worker.ts:289-325 | A run on which a seeded process may dispatch at the moment of a stored success that a reschedule took back |
| BridgeRuns.UnseededRestartForgets | backend/src/bridge-worker.ts:392-404 | A run on which a process whose start-up read failed may dispatch at the moment of a stored success |
| BridgeObject.DispatchRuns | backend/src/bridge-worker.ts:116-337 | Every outcome of one dispatch is a run of the machine |
| BridgeObject.Worker.DispatchEntry | backend/src/bridge-worker.ts:116-337 | Makes those steps: which outcome completes, fails or postpones the entry, which costs an attempt, and which consumes the cooldown |
| BridgeObject.Worker.RunWorkerTick | backend/src/bridge-worker.ts:343-357 | Dispatches the oldest due entry exactly when no tick runs and the cooldown has passed, as a run of the machine |
| BridgeObject.Worker.StartBridgeWorker | backend/src/bridge-worker.ts:392-404 | Starting the worker is the boot step, seeded or not |
| BridgeRuns.BootSetsClock | backend/src/bridge-queue.ts:540-550 | A start whose read works sets the clock to the latest completion of a broadcast row, or to nothing; a failed read to nothing |
| Notifications.SortByBlock | backend/src/notification-queries.ts:1040-1042 | A stable sort by block |
| Notifications.PrefixCut | backend/src/notification-queries.ts:1045-1066 | The longest whole-block prefix within the cap |
| Notifications.SuffixCut | backend/src/notification-queries.ts:1045-1066 | The longest whole-block suffix within the cap |
| Notifications.FetchNotifications | backend/src/notification-queries.ts:923-1076 | Oldest first delivers exactly that prefix in order; newest first exactly that suffix by block, ids never rising within a block; more is reported exactly when the window exceeds the cap; one operation may have several rows |
| Notifications.NothingDeliveredIff | backend/src/notification-queries.ts:1059-1066 | A non-empty window yields an empty batch exactly when its oldest block alone exceeds the cap |
| Notifications.FittingWindowIsWhole | backend/src/notification-queries.ts:931-937 | A window within the cap loses nothing |
| Notifications.ComputeNotificationWindowFloor | backend/src/notification-queries.ts:142-147 | The floor is the greater of the block before genesis and the head less 100000, neither below 0 |
| Notifications.FilterEventsAfter | backend/src/notification-queries.ts:155-157 | Exactly the events past the cursor, which are a suffix |
| Digest.DigestRunner.RunDigest | backend/src/digest.ts:180-293 | Each due user gets one run, no user's failure touches another, and every user is counted once, as sent exactly when the cursor moved |
| Digest.CursorStrictlyRises | backend/src/digest.ts:236-283 | A cursor that moves, and every send that is stored, moves strictly forward |
| Digest.CursorPassesOnlySentIff | backend/src/digest.ts:137-141 | Moving the stored cursor passes only emailed events since genesis of the run's window exactly when mail is configured |
| Digest.EmailsTellOnlyNews | backend/src/digest.ts:221-236 | An email tells only of events of the window past the stored cursor and not before genesis |
| Digest.FittingWindowIsDrained | backend/src/digest.ts:236-283 | A working run leaves no event since genesis of a window within the cap past the cursor |
| Digest.SecondRunFindsNothing | backend/src/digest.ts:249-282 | Running again on the same window, in whatever order one operation's rows come, finds nothing new, even if the window held more |
| Digest.NoEventTwice | backend/src/digest.ts:236-283 | Over any sequence of runs no event is emailed twice unless an email went out and the cursor stayed behind |
| Digest.LostTrackRepeats | backend/src/digest.ts:239-246 | One send that throws after it went out, or one lost cursor write, sends the same events again |
| AccountClaims.ClaimAccountTokens | backend/src/account-creation.ts:147-185 | Ends for every budget, claims the budget divided by the cost when only credits fail, times out only if an attempt does, and is off the chain by at most the batch that timed out |

## Left out

- Consent.GetConsentedAuthors: assumes operation ids increase with blocks, as in the operation view, and signers already trimmed and lowercased.
- ConsentQuery.TwinsAgreeIff: leaves out bridge papers, where the database ignores ORCID anchors, and the root author, whose resign the process ignores.
- ContinuationChain.LaterPostsOnlyExtend: assumes no edits; an edit that changes who a post names can reroute a chain.
- Credit.CreditedExactlyOnce: takes the trust operations and the claim events as two independent inputs although a revoke appears in both.
- ReputationScore.RunCycle: takes the votes, reviews, citations and exclusions of each post as given sets; the joins that collect them from the views are not modelled, and arithmetic is exact instead of PostgreSQL numeric and JavaScript double. Every accredited account's voter weight counts as evaluated; PostgreSQL may skip the weight of an account that no arm asks for, so a cycle may survive a negative score that no vote reads.
- ReputationBatch.StampedScoresAreTheReplay: the accredited set is fixed, versions identify weights (no hash collision), one run executes at a time, and Redis commands that return have been applied.
- ReputationBatch.BatchRunner.RunBatchComputation: the lock key and its lifetime are reduced to one flag, and what goes wrong is an input, the first fault of each cycle.
- CacheFreshness.NothingStaleAfterInvalidation: the in-memory fallback and failing Redis commands are not modelled, and a caller may still receive the value of an older flight it joined.
- CacheObject.Cache.BeginSweep: the scan's rounds and the deletes of the backend are separate methods of the object; timers are not modelled.
- BridgeRuns.LandsAtMostOnce: assumes the index of posts is configured and reflects every landed post at the duplicate check, and that a broadcast refused otherwise than by a timeout did not land. The life of a broadcast is a parameter: it is set by the chain library, which is not part of this model.
- BridgeRuns.CooldownIsKept: measures from the moment the process saw the result, not from the block the post landed in.
- Notifications.FetchNotifications: starts from the window's event rows; the nine arms that produce and deduplicate them are not modelled.
- Digest.NoEventTwice: an edit of content older than the window floor, which re-fires as a new event, counts as a different event.
- AccountClaims.ClaimAccountTokens: credits do not regenerate while the loop runs and every claim costs the same.
- Express routes, SEO injection, rate limits, translations and all frontends: wiring and presentation.
- Metadata lookup, identifier parsing and post bodies of the bridge: taken as outcomes.
- Cryptography, sessions, mail transport and signing: foreign calls, taken as landed, failed or timed out.
- `findCanonicalRoot` and version reconstruction in `chain-walkers.ts`: not part of this model.
- Planner fences, indexes other than the queue's unique one, JSON shape guards and whitespace normalization: inputs are assumed well-typed and normalized.
- Timers, boot checks, purge tickers and configuration parsing: they would only add easy members.
