# SkillTimeBank core, modelled in Dafny

SkillTimeBank is a community time bank. Members post gigs: FIND_HELP, where the poster pays, or
OFFER_HELP, where the helper pays. They accept, start and confirm gigs, and settle them in time
credits (TC). Around this core sit:

- moderation: freezing accounts, rate-limit decisions, and disputes settled by minting refunds;
- weekly themed events that pay a reward to every participant when the goal is reached;
- a leaderboard kept from per-user statistics;
- user registration with a signup bonus.

This project models those services as pure functions over one immutable `State`. It then proves
the properties the services promise: credits are conserved, payment is idempotent, a gig is paid
exactly once, refunds are exact, rewards are paid once per participant, and the leaderboard is
ordered.

Layout, one module per source component:

| file | module | models |
|---|---|---|
| `wrappers.dfy` | `Wrappers` | `Option` |
| `seqs.dfy` | `Seqs` | the array operations the services use: `filter`, `find`, stable sort, `includes`-guarded append |
| `tables.dfy` | `Tables` | a JavaScript `Record<string, T>`: a map plus the insertion order that `Object.values` follows; `Put` is the object-spread update |
| `text.dfy` | `Text` | `String.prototype.trim` and ASCII `toLowerCase` |
| `types.dfy` | `Types` | the records and enumerations of `src/types`, and the `Reply` result of every service call |
| `timebank.dfy` | `Timebank` | `TimebankState`, the initial state and the `add*` helpers |
| `gig_service.dfy`, `gig_properties.dfy` | `GigService`, `GigProperties` | `gigService.ts` |
| `moderation_service.dfy`, `moderation_properties.dfy` | `ModerationService`, `ModerationProperties` | `moderationService.ts` |
| `event_service.dfy`, `event_properties.dfy` | `EventService`, `EventProperties` | `eventService.ts` |
| `leaderboard_service.dfy`, `leaderboard_properties.dfy` | `LeaderboardService`, `LeaderboardProperties` | `leaderboardService.ts` |
| `user_service.dfy`, `user_properties.dfy` | `UserService`, `UserProperties` | `userService.ts` |
| `scenarios.dfy` | `Scenarios` | two complete walks through the gig lifecycle |

Conventions:

- **Service results.** Each service call returns a `Reply`:
  - `Ok(newState, value)` for `success: true`;
  - `Fail(error)` for a failure that leaves the state untouched;
  - `FailRecorded(error, newState)` for the one case where `processTransaction` fails and still
    returns a state, with the transaction marked FAILED.
- **Parameters.** The current time (`now`, in milliseconds) and every generated id (`gigId`, `txId`,
  `actionId`, `disputeId`, `eventId`) are parameters of the operation. The source reads them from
  `Date.now()` and `Math.random()`.

## Model

| member | source | states |
|---|---|---|
| `Timebank.InitialState` | src/state/timebank.ts:23-34 | every collection is empty and no user is current |
| `Timebank.AddUser` | src/state/timebank.ts:90-98 | the user is stored under its id, every other user is unchanged, the key set grows by exactly that id, and the rest of the state is untouched |
| `Timebank.AddGig` | src/state/timebank.ts:100-108 | the same for gigs |
| `Timebank.AddTransaction` | src/state/timebank.ts:110-117 | the same for transactions |
| `Timebank.TotalCreditsPut` | src/services/gigService.ts:349-360 | replacing one user's record changes the community's total credits by exactly the change in that user's balance |
| `Timebank.TotalCreditsPutFresh` | src/services/userService.ts:63-69 | adding a new user adds exactly that user's balance to the total |
| `Tables.Put` | src/state/timebank.ts:93-96 | an object-spread update: an existing key keeps its position in iteration order, and a new key goes last |
| `Tables.PutFreshValues` | src/state/timebank.ts:93-96 | adding a new key appends its value to `Object.values` |
| `Tables.PutPresentValues` | src/state/timebank.ts:93-96 | overwriting a key replaces its value in place in `Object.values` |
| `Seqs.FindAppend` | src/services/gigService.ts:210-212 | appending to an array does not change what `find` returns once it has a match |
| `Seqs.FindAppendNone` | src/services/gigService.ts:210-212 | with no earlier match, `find` returns an appended matching element |
| `Seqs.InsertKeyRun` | src/services/leaderboardService.ts:115-122 | inserting into a sorted array puts the new element first among those with its key and keeps their order |
| `Seqs.SortBy` | src/services/leaderboardService.ts:115-122 | the result is sorted, a permutation of the input, and stable: the elements of each key keep their order |
| `Text.Trim` | src/services/gigService.ts:20 | the result is the input without its maximal leading and trailing whitespace runs, and it neither starts nor ends with whitespace |
| `Text.TrimEmptyIffBlank` | src/services/gigService.ts:20 | a string trims to nothing exactly when it is all whitespace |
| `Text.TrimOfTrimmed` | src/services/gigService.ts:20 | a string that neither starts nor ends with whitespace is its own trimmed form |
| `Text.Utf16Length` | src/services/gigService.ts:20-28 | `length` counts UTF-16 code units: one per character in the Basic Multilingual Plane and two above it, so between the number of characters and twice that |
| `Text.Lower` | src/services/eventService.ts:88 | upper-case ASCII letters are mapped to lower case and every other character is kept |
| `GigService.NewGig` | src/services/gigService.ts:44-49 | the stored gig carries every field of the draft, plus the new id, the creation time and status OPEN |
| `GigService.CreateGig` | src/services/gigService.ts:8-63 | fails for an unknown creator, a trimmed title under 10 UTF-16 code units, a trimmed description under 20 UTF-16 code units, or a FIND_HELP poster who cannot cover the offer, checked in that order; otherwise it adds exactly one OPEN gig and changes nothing else |
| `GigService.AcceptGig` | src/services/gigService.ts:65-111 | succeeds exactly for a known user accepting someone else's OPEN gig; the gig becomes ASSIGNED to that user and nothing else changes |
| `GigService.StartGig` | src/services/gigService.ts:368-405 | only the assignee can start, and only from ASSIGNED; the gig becomes IN_PROGRESS and nothing else changes |
| `GigService.ProcessTransaction` | src/services/gigService.ts:274-366 | a completed transaction is returned unchanged; a non-pending one fails; a pending one with a missing party or a short payer is marked FAILED; otherwise exactly `amount` moves from payer to payee and the transaction is COMPLETED |
| `GigService.Payer` | src/services/gigService.ts:221-233 | FIND_HELP: the creator pays; OFFER_HELP: the assignee pays |
| `GigService.Payee` | src/services/gigService.ts:221-233 | the payee is the other party: payer and payee are exactly the creator and the assignee |
| `GigService.FirstPayment` | src/services/gigService.ts:206-209 | the first GIG_PAYMENT of the gig in table order, and none exactly when the gig has no payment |
| `GigService.FoundInTable` | src/services/gigService.ts:206-209 | what `find` over `Object.values` finds is stored in the table and satisfies the predicate; when it finds nothing, no stored value does |
| `GigService.PaymentRecord` | src/services/gigService.ts:245-257 | the new payment is a PENDING GIG_PAYMENT from payer to payee for the offered amount |
| `GigService.SettledPayment` | src/services/gigService.ts:343-347 | the settled payment is the same record, now COMPLETED |
| `GigService.PayAnew` | src/services/gigService.ts:235-268 | with a short payer it fails; otherwise the offered amount moves from payer to payee and the settled payment is recorded |
| `GigService.ExecutePayment` | src/services/gigService.ts:188-272 | an unassigned or missing gig and missing parties fail; an existing completed payment is reused, and a pending one is resumed; otherwise a new payment is made; only users and transactions ever change |
| `GigService.ConfirmGigCompletion` | src/services/gigService.ts:113-186 | only a known participant may confirm; a COMPLETED gig is confirmed again without effect; from ASSIGNED the gig only moves to AWAITING_CONFIRMATION; from IN_PROGRESS or AWAITING_CONFIRMATION it completes and pays, and a failed payment fails the whole call with the state unchanged |
| `GigProperties.SecondAcceptFails` | src/services/gigService.ts:87-90 | once a gig is accepted, every further accept fails: exactly one helper wins |
| `GigProperties.ProcessTwiceIsIdempotent` | src/services/gigService.ts:285-288 | processing a settled transaction again returns the same state and id |
| `GigProperties.TransferConserves` | src/services/gigService.ts:332-360 | a transfer between two different users leaves the total credits unchanged |
| `GigProperties.SelfTransferMints` | src/services/gigService.ts:349-355 | when payer and payee coincide, the later spread wins and the total grows by the amount |
| `GigProperties.ProcessTransactionConserves` | src/services/gigService.ts:274-366 | processing a transaction between two different users never changes the total credits |
| `GigProperties.PaymentIsIdempotent` | src/services/gigService.ts:206-219 | for a gig with no earlier payment, paying again after a successful payment returns the same state and the same transaction id |
| `GigProperties.RepaysAfterFailedPayment` | src/services/gigService.ts:206-268 | when the gig's first payment is FAILED or CANCELLED, a later payment ignores it and pays anew, and with a solvent payer moves the offer a second time |
| `GigProperties.ConfirmFromAssignedDefersPayment` | src/services/gigService.ts:146-149 | a confirmation of an ASSIGNED gig moves no credits and records no transaction |
| `GigProperties.SecondConfirmationPays` | src/services/gigService.ts:146-180 | a second confirmation after the deferred one completes the gig and pays the payee |
| `GigProperties.ConfirmFromInProgressPays` | src/services/gigService.ts:150-180 | confirming an IN_PROGRESS gig with a solvent payer completes it and transfers the offer |
| `GigProperties.ShortPayerBlocksCompletion` | src/services/gigService.ts:173-179 | when the payer cannot pay, the confirmation fails and the gig stays incomplete |
| `GigProperties.GigStepPreserves` | src/services/gigService.ts:92-105 | a status change that does not complete a gig keeps the ledger invariant: ids match keys, gigs are well formed, completed payments belong to completed gigs, and there is at most one per gig |
| `GigProperties.CompletionPreserves` | src/services/gigService.ts:156-180 | completing a gig together with settling its single payment keeps the ledger invariant |
| `GigProperties.CreatePreserves` | src/services/gigService.ts:8-63 | posting keeps the ledger invariant |
| `GigProperties.AcceptPreserves` | src/services/gigService.ts:65-111 | accepting keeps the ledger invariant |
| `GigProperties.StartPreserves` | src/services/gigService.ts:368-405 | starting keeps the ledger invariant |
| `GigProperties.CompletingPaymentPreserves` | src/services/gigService.ts:170-179 | the payment made when a gig completes, with a fresh id, keeps the ledger invariant |
| `GigProperties.ConfirmPreserves` | src/services/gigService.ts:113-186 | confirming with a fresh payment id keeps the ledger invariant: no gig is ever paid twice |
| `ModerationService.CalculateTrustLevel` | src/services/moderationService.ts:320-324 | VETERAN exactly from reputation 51, TRUSTED exactly from 11 to 50, NEW below 11 |
| `ModerationService.TrustLevelMonotone` | src/services/moderationService.ts:320-324 | more reputation never means a lower trust level |
| `ModerationService.RateLimitFor` | src/services/moderationService.ts:311-314 | the hourly limits are 10 for VETERAN, 7 for TRUSTED and 5 otherwise |
| `ModerationService.CheckRateLimit` | src/services/moderationService.ts:293-318 | allowed exactly for a registered user who is not frozen; the remaining count is the limit of the recorded trust level, or of the level the reputation earns when nothing is recorded |
| `ModerationService.FreezeUser` | src/services/moderationService.ts:18-68 | succeeds exactly for a registered user; their status becomes frozen by this moderator with the reason and time, and with the trust level their reputation earns; the action is logged; no other status changes |
| `ModerationService.UnfreezeUser` | src/services/moderationService.ts:70-117 | always succeeds; the freeze fields are cleared, and the recorded trust level and reputation are kept, or NEW and 0 when none was recorded; the action is logged |
| `ModerationService.FreezeThenUnfreeze` | src/services/moderationService.ts:18-117 | a freeze denies the user's actions, and the unfreeze that follows allows them again with the trust level the freeze recorded |
| `ModerationService.GetOpenDisputes` | src/services/moderationService.ts:326-328 | exactly the OPEN disputes, each as often as it is stored |
| `ModerationService.GetFrozenUsers` | src/services/moderationService.ts:330-332 | exactly the frozen statuses, each as often as it is stored |
| `ModerationService.Respondent` | src/services/moderationService.ts:140 | when the creator disputes, the respondent is the assignee; otherwise it is the creator |
| `ModerationService.OpenDispute` | src/services/moderationService.ts:119-167 | succeeds exactly for a completed gig within 24 hours of completion; the new OPEN dispute holds the gig's offer in escrow; nothing else changes |
| `ModerationService.DisputeWindowBoundary` | src/services/moderationService.ts:132-138 | exactly 24 hours after completion is still in time; one millisecond later is not |
| `ModerationService.Allocations` | src/services/moderationService.ts:187-207 | the escrow goes wholly to one side, or is split into a floor half and the remainder for the respondent, or to nobody when the dispute is dismissed |
| `ModerationService.AllocationsSumToEscrow` | src/services/moderationService.ts:187-207 | every outcome except DISMISSED hands out exactly the escrow; a split gives the initiator the floor half and the respondent the rest, so the respondent gets the odd credit |
| `ModerationService.SplitOfSeven` | src/services/moderationService.ts:197-202 | an escrow of 7 splits into 3 for the initiator and 4 for the respondent |
| `ModerationService.RefundRecord` | src/services/moderationService.ts:264-276 | a refund is a COMPLETED DISPUTE_REFUND from the system account to the user, for the allocated amount, under the id `tx_dispute_<dispute>_<user>` |
| `ModerationService.CreditAllocations` | src/services/moderationService.ts:255-262 | each registered user gains the sum allocated to them; no user is added or removed |
| `ModerationService.RecordRefunds` | src/services/moderationService.ts:263-276 | the ledger afterwards holds exactly the old ids plus one refund id per registered beneficiary; every other transaction is unchanged, and every transaction afterwards was there before or is a refund to a registered user |
| `ModerationService.RecordRefundsKeeps` | src/services/moderationService.ts:263-276 | a refund already written stays written |
| `ModerationService.RecordRefundsWrites` | src/services/moderationService.ts:255-277 | every allocation to a registered user gets a refund to that user; the last allocation to a user is recorded exactly, with its amount, the outcome and the time |
| `ModerationService.RefundKeyAbsent` | src/services/moderationService.ts:264 | a user who receives no allocation gets no refund id |
| `ModerationService.RecordRefundsRecorded` | src/services/moderationService.ts:255-277 | the written refunds: exactly the beneficiaries' ids are added, other transactions are unchanged, and the last allocation to each registered user is recorded exactly |
| `ModerationService.RefundIdInjective` | src/services/moderationService.ts:264 | different users of one dispute get different refund ids |
| `ModerationService.ResolveDisputeOp` | src/services/moderationService.ts:169-291 | fails for a missing or already resolved dispute; otherwise the dispute is RESOLVED with its resolution, an audit action is logged, every registered user's balance grows by exactly their allocation, exactly one refund id per registered beneficiary is added to the ledger with the exact amount, and no other transaction changes |
| `ModerationProperties.ResolveOnce` | src/services/moderationService.ts:183-185 | a resolved dispute cannot be resolved again |
| `ModerationProperties.AllocatedToNonNegative` | src/services/moderationService.ts:187-207 | when no allocation is negative, no user's allocated total is negative |
| `ModerationProperties.ResolveNeverDebits` | src/services/moderationService.ts:250-285 | resolving a dispute with a non-negative escrow never lowers a balance |
| `ModerationProperties.FavorInitiatorCredits` | src/services/moderationService.ts:191-193 | a registered initiator who wins gains the whole escrow |
| `ModerationProperties.SplitCredits` | src/services/moderationService.ts:197-202 | on a split, a registered initiator gains the floor half and a distinct registered respondent gains the rest |
| `ModerationProperties.DismissedMovesNothing` | src/services/moderationService.ts:204-206 | a dismissal changes no balance and records no transaction |
| `ModerationProperties.ResolveKeepsLedger` | src/services/moderationService.ts:263-276 | resolving adds only refunds to registered beneficiaries and leaves every other transaction as it was |
| `ModerationProperties.FavorInitiatorRefund` | src/services/moderationService.ts:190-192 | a registered initiator who wins gets a refund of the whole escrow |
| `ModerationProperties.FavorRespondentRefund` | src/services/moderationService.ts:193-195 | a registered respondent who wins gets a refund of the whole escrow |
| `ModerationProperties.SplitRefundsInitiator` | src/services/moderationService.ts:196-202 | on a split, a registered initiator who is not the respondent gets a refund of the floor half |
| `ModerationProperties.SplitRefundsRespondent` | src/services/moderationService.ts:196-202 | on a split, a registered respondent gets a refund of the remainder, even when it is also the initiator, because its refund is written last |
| `ModerationProperties.ResolveRefundAt` | src/services/moderationService.ts:255-277 | the last allocation to a registered user is recorded as that user's refund, with the allocated amount |
| `ModerationProperties.RespondentIsOtherParty` | src/services/moderationService.ts:140 | on a well-formed gig, a participant's respondent is the other participant |
| `ModerationProperties.DisputesOnlyCompletedGigs` | src/services/moderationService.ts:127-130 | under the ledger invariant, only COMPLETED gigs can be disputed |
| `EventService.GoalForCommunity` | src/services/eventService.ts:250-256 | the goal is 5 below 10 users, 15 below 50, 30 below 100, and 50 otherwise |
| `EventService.CalculateGoalAmount` | src/services/eventService.ts:250-256 | the goal depends only on how many users are registered |
| `EventService.GoalMonotone` | src/services/eventService.ts:250-256 | a larger community never gets a smaller goal |
| `EventService.ThemeIndex` | src/services/eventService.ts:6-12 | every theme has its place in the rotation |
| `EventService.NextInRotation` | src/services/eventService.ts:245-247 | the next theme is the one after the last one in the rotation, wrapping around |
| `EventService.RotationCycles` | src/services/eventService.ts:6-12 | after five steps the rotation returns to its start, and not before |
| `EventService.GetNextTheme` | src/services/eventService.ts:237-248 | TECH when there are no events; otherwise the successor of the theme of a most recently created event |
| `EventService.LatestFirst` | src/services/eventService.ts:238-239 | the head of the newest-first order is a stored event, and no event is newer |
| `EventService.GetActiveEvent` | src/services/eventService.ts:183-186 | none exactly when no event is ACTIVE; otherwise an ACTIVE stored event, the first in table order |
| `EventService.ActiveForWeek` | src/services/eventService.ts:25-28 | an ACTIVE event of the given week, and none exactly when there is none |
| `EventService.ChosenGoal` | src/services/eventService.ts:38 | a given non-zero goal is used, and otherwise the calculated one |
| `EventService.CreateWeeklyEvent` | src/services/eventService.ts:14-68 | always succeeds; when the week already has an ACTIVE event it is returned and nothing changes; otherwise exactly one new ACTIVE event is added with no progress, no participants and a reward of 2 |
| `EventService.RewardRecord` | src/services/eventService.ts:158-170 | a reward is a COMPLETED WEEKLY_EVENT_REWARD from the system account for the event's reward |
| `EventService.CreditRewards` | src/services/eventService.ts:149-156 | no user is added or removed |
| `EventService.CreditRewardsEffect` | src/services/eventService.ts:149-156 | each registered user gains the reward once for every time they appear among the participants |
| `EventService.RecordRewards` | src/services/eventService.ts:157-171 | the ledger afterwards holds exactly the old ids plus one reward id per registered participant; every other transaction is unchanged, and every transaction afterwards was there before or is a reward |
| `EventService.RecordRewardsKeeps` | src/services/eventService.ts:157-171 | a reward already written stays written |
| `EventService.RecordRewardsWrites` | src/services/eventService.ts:149-172 | every registered participant gets a reward record |
| `EventService.RewardIdInjective` | src/services/eventService.ts:158 | different participants get different reward ids |
| `EventService.DistributeRewards` | src/services/eventService.ts:134-181 | fails exactly unless the event exists and is COMPLETED; otherwise every registered participant is credited and gets a reward record, exactly their reward ids are added, and no other transaction changes |
| `EventService.Progressed` | src/services/eventService.ts:95-101 | progress grows by one; the participants become the old ones plus the user, and stay duplicate-free |
| `EventService.RecordGigCompletion` | src/services/eventService.ts:70-132 | with no active event nothing happens; a missing gig fails; a gig off the theme changes nothing; otherwise the active event progresses, and when it reaches its goal it is COMPLETED and the rewards are paid |
| `EventService.ExpireOldEvents` | src/services/eventService.ts:188-218 | with no overdue ACTIVE event the state is returned unchanged; only the events change |
| `EventProperties.CreateTwiceSameWeek` | src/services/eventService.ts:24-32 | creating a weekly event twice in the same week yields one event: the second call returns the first event and changes nothing |
| `EventProperties.AutoThemesRotate` | src/services/eventService.ts:34-35 | without a given theme, a new event takes the successor of the latest event's theme |
| `EventProperties.CategoryNameIsLower` | src/services/eventService.ts:88 | category names are already lower case |
| `EventProperties.ThemeNameIsLower` | src/services/eventService.ts:88 | theme names are already lower case |
| `EventProperties.ThemeMatching` | src/services/eventService.ts:87-88 | a gig counts exactly for a MIXED event, or when its category is the event's theme (tech, creative, education, care) |
| `EventProperties.SameNameSameArea` | src/services/eventService.ts:87-88 | a category and a theme have the same name exactly for tech, creative, education and care |
| `EventProperties.ExpireEachFrom` | src/services/eventService.ts:194-202 | the loop over a snapshot of the events expires each one independently |
| `EventProperties.ExpireIsPointwise` | src/services/eventService.ts:188-218 | expiring events marks every overdue ACTIVE event EXPIRED and leaves every other event as it was |
| `EventProperties.ExpireIdempotent` | src/services/eventService.ts:188-218 | expiring twice at the same time is the same as expiring once |
| `EventProperties.RecordKeepsParticipantsUnique` | src/services/eventService.ts:98-100 | recording a completion never lists a participant twice |
| `EventProperties.CreateKeepsParticipantsUnique` | src/services/eventService.ts:41-62 | creating an event never lists a participant twice |
| `EventProperties.GoalPaysEachParticipantOnce` | src/services/eventService.ts:103-126 | the completion that reaches the goal pays each registered participant the reward exactly once |
| `LeaderboardService.UpdateUserStats` | src/services/leaderboardService.ts:7-66 | fails exactly when the gig or the user is missing; otherwise the three completion counters grow by one, the gig's category joins the categories once, the activity time is updated, and no other user's statistics change |
| `LeaderboardService.ResetWeeklyStats` | src/services/leaderboardService.ts:177-198 | every user keeps their statistics except that the weekly count becomes 0 |
| `LeaderboardService.ResetSeasonalStats` | src/services/leaderboardService.ts:200-222 | every user keeps their statistics except that the weekly and seasonal counts become 0 |
| `LeaderboardService.Score` | src/services/leaderboardService.ts:83-102 | the score for each category and period: completions for the period, the average response time, the number of distinct categories, or 0 for a category without a case |
| `LeaderboardService.Entries` | src/services/leaderboardService.ts:76-113 | an entry exactly for each eligible statistic: the user is registered, and for fastest responders has at least 3 completed gigs |
| `LeaderboardService.SliceEnd` | src/services/leaderboardService.ts:125 | `slice(0, limit)` keeps the first `limit` entries, counting a negative limit from the end |
| `LeaderboardService.Ranked` | src/services/leaderboardService.ts:125-128 | the entries keep their order and get ranks 1, 2, 3 and so on |
| `LeaderboardService.GetLeaderboard` | src/services/leaderboardService.ts:68-129 | a ranked prefix of a score-sorted permutation of the eligible entries: ascending for fastest responders, descending otherwise |
| `LeaderboardProperties.SortedView` | src/services/leaderboardService.ts:115-128 | the board is a ranked prefix of a stable sort of all the eligible entries: entries with equal scores keep their table order |
| `LeaderboardProperties.DefaultBoardIsTopTen` | src/services/leaderboardService.ts:68-72 | without a limit, the board lists ten users, or every eligible user when there are fewer |
| `LeaderboardProperties.EntryOrigin` | src/services/leaderboardService.ts:76-113 | each listed entry comes from a stored, eligible statistic |
| `LeaderboardProperties.LeaderHasBestScore` | src/services/leaderboardService.ts:115-122 | the first place scores at least as well as every eligible user |
| `LeaderboardProperties.BoardIsOrdered` | src/services/leaderboardService.ts:115-122 | every place scores at least as well as every later place |
| `LeaderboardProperties.EveryoneListedUnderLimit` | src/services/leaderboardService.ts:125 | with a limit at least the number of statistics, every eligible user is listed |
| `LeaderboardProperties.FastestRespondersAreExperienced` | src/services/leaderboardService.ts:91-96 | everyone on the fastest-responders board is registered and has statistics |
| `LeaderboardProperties.UpdateKeepsCategoriesUnique` | src/services/leaderboardService.ts:39-42 | recording a completion never lists a category twice |
| `LeaderboardProperties.DiversityBounded` | src/services/leaderboardService.ts:98-100 | a duplicate-free list of categories has at most 7 entries |
| `LeaderboardProperties.DiverseScoreAtMostSeven` | src/services/leaderboardService.ts:98-100 | no diversity score exceeds the 7 gig categories |
| `LeaderboardProperties.UpdateRaisesAllTimeScore` | src/services/leaderboardService.ts:30-37 | recording a completion raises the all-time top-helper score by exactly one |
| `LeaderboardProperties.WeeklyBoardEmptyAfterReset` | src/services/leaderboardService.ts:177-198 | after a weekly reset every weekly top-helper score is 0 |
| `LeaderboardProperties.ResetsCompose` | src/services/leaderboardService.ts:177-222 | each reset is idempotent, and the seasonal reset subsumes the weekly one in either order |
| `UserService.NewMember` | src/services/userService.ts:27-35 | a new member gets the 1 TC signup bonus and reputation 0; an empty username becomes "Anonymous" |
| `UserService.SignupRecord` | src/services/userService.ts:39-50 | the bonus is a COMPLETED SIGNUP_BONUS of 1 TC from the system account |
| `UserService.RegisterUser` | src/services/userService.ts:9-81 | without a current user it fails; a known user is returned with the state unchanged; a new user is added with the bonus, together with its transaction, the system account if it was missing, and the current user |
| `UserService.EnsureUserRegistered` | src/services/userService.ts:83-118 | succeeds with the current user's id whenever there is one; a known user only becomes current, and a new one is registered |
| `UserService.GetUserTransactions` | src/services/userService.ts:120-124 | exactly the transactions the user sends or receives, each as often as stored, newest first |
| `UserProperties.RegisterIsIdempotent` | src/services/userService.ts:21-24 | registering the same user twice is the same as registering once |
| `UserProperties.SignupMintsBonus` | src/services/userService.ts:26-75 | a signup raises the total credits by the bonus, plus the system account's initial balance when that account is created; existing balances are unchanged |
| `UserProperties.EnsureMakesCurrent` | src/services/userService.ts:93-111 | afterwards the user is registered and is the current user |
| `UserProperties.SignupInHistory` | src/services/userService.ts:37-50 | a new member's history holds their signup bonus |
| `Scenarios.CommunityIsStartingPoint` | src/state/timebank.ts:90-98 | adding Alice (100 TC) and Bob (50 TC) to the initial state gives a community with no gigs and no transactions |
| `Scenarios.RequestIsValid` | src/services/gigService.ts:19-33 | the sample request's trimmed title and description are long enough in UTF-16 code units |
| `Scenarios.EmojiTitleIsLongEnough` | src/services/gigService.ts:20 | a title of five emoji is five characters but ten UTF-16 code units, so it passes the title check |
| `Scenarios.StartThenConfirm` | src/services/gigService.ts:113-186 | Alice posts a 30 TC FIND_HELP gig, Bob accepts and starts it, and Alice's single confirmation completes it: Alice ends with 70 and Bob with 80 |
| `Scenarios.ConfirmTwice` | src/services/gigService.ts:146-180 | if Bob never starts, Alice's confirmation only waits and moves nothing, and Bob's confirmation completes the gig and moves the 30 credits |

## Left out

- **Persistence and UI.** Redis persistence (`saveState`, `loadState`), the React-style state hook and
  all UI components are not modelled. The services are pure functions of a state, and the model keeps
  them so.
- **Clock and ids as parameters.** `new Date()`, `Date.now()` and the random suffix of generated ids are
  parameters, so the model cannot say that two generated ids differ. Properties that need fresh ids
  (for example `GigProperties.ConfirmPreserves`) require them.
- **Calendar weeks.** `getStartOfWeek` and `getEndOfWeek`, the calendar arithmetic of the local time
  zone, are not modelled. `CreateWeeklyEvent` takes the week's start and end as parameters.
- **Dates are integers.** Dates are integers (milliseconds). Date objects, ISO strings and their
  parsing are not modelled.
- **Exception handlers.** The `catch` branch of every service is left out: the modelled code throws
  nothing on the inputs it accepts.
- **Key order.** JavaScript lists integer-like keys of an object first. `Tables` keeps plain insertion
  order. The services only use generated, non-numeric keys.
- **Omitted fields.** These fields are not modelled, because no modelled operation reads or writes them:
  - the optional `location`, `rating` and `feedback` of a gig;
  - the optional `location` of a user;
  - `targetTransactionId` of a moderation action;
  - `metadata` of leaderboard entries;
  - the `resetAt` field of the rate-limit answer.

  A moderation action's `details`, a free-form record in the source, is narrowed to the outcome and the
  allocation that `resolveDispute` stores. The `UserProfile`, `EventParticipation` and `RateLimit`
  interfaces are not modelled. Transaction descriptions are modelled with the texts the services
  write. `getCommunityAnalytics` is not part of this model either.
- **Concurrency.** "Exactly one helper wins a gig" is modelled for sequential calls
  (`GigProperties.SecondAcceptFails`). Concurrent writers are not modelled.
- **Rate-limit parameters.** `checkRateLimit` ignores its `actionType` and its one-hour window, and so
  does the model.
- GigProperties.PaymentIsIdempotent: idempotence is proved only for a gig with no earlier GIG_PAYMENT.
  When the gig's first payment is FAILED or CANCELLED, the source pays anew on every call, as
  `GigProperties.RepaysAfterFailedPayment` states. `executePayment` itself never stores such a payment.
- LeaderboardService.UpdateUserStats: the average response time is left unchanged. The source updates
  it with a floating-point running mean of minutes when the user is the gig's assignee; floating point
  is not modelled.
- ModerationService.ResolveDisputeOp: an allocation to an undefined respondent is skipped. This
  happens when the creator disputes a gig that has no assignee; the source would look up the key
  "undefined", which no generated user id matches.
- EventService.DistributeRewards: one `stamp` stands for the `Date.now()` text of every reward id in
  one distribution. The source reads the clock per participant.
- EventService.CreateWeeklyEvent: a title and a description are picked per theme, but they are not
  part of any proved property. The emoji in the titles are written as Unicode escapes.
