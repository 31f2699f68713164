/**
 * The records and enumerations of the marketplace: users, gigs, ledger
 * transactions, disputes and moderation records, weekly events and
 * leaderboard statistics. Timestamps are integer milliseconds; optional
 * fields are `Option`s.
 */
module Types {
  import opened Wrappers

  // ----- users -----

  datatype User = User(
    id: string,
    username: string,
    timeCredits: int,
    reputation: int,
    skills: seq<string>,
    joinedAt: int,
    isActive: bool)

  // ----- gigs -----

  /** `FindHelp`: the poster pays the accepter. `OfferHelp`: the accepter pays the poster. */
  datatype GigType = OfferHelp | FindHelp

  datatype GigCategory = Tech | Creative | Education | Household | Transportation | Care | Other

  datatype GigStatus = Open | Assigned | InProgress | AwaitingConfirmation | Completed | Cancelled

  datatype Gig = Gig(
    id: string,
    title: string,
    description: string,
    category: GigCategory,
    gigType: GigType,
    timeCreditsOffered: int,
    estimatedDuration: int,
    requiredSkills: seq<string>,
    isRemote: bool,
    createdBy: string,
    createdAt: int,
    status: GigStatus,
    assignedTo: Option<string>,
    completedAt: Option<int>)

  /** The enumeration's string value (`GigCategory.TECH === 'tech'`, ...). */
  function CategoryName(c: GigCategory): string {
    match c
    case Tech => "tech"
    case Creative => "creative"
    case Education => "education"
    case Household => "household"
    case Transportation => "transportation"
    case Care => "care"
    case Other => "other"
  }

  // ----- ledger -----

  datatype TransactionType =
    | GigPayment | SignupBonus | AdminAward | Bonus | Penalty | Refund
    | WeeklyEventReward | DisputeRefund | FraudReversal

  datatype TransactionStatus = Pending | TxCompleted | Failed | TxCancelled

  datatype Transaction = Transaction(
    id: string,
    fromUserId: string,
    toUserId: string,
    gigId: string,
    amount: int,
    txType: TransactionType,
    status: TransactionStatus,
    createdAt: int,
    completedAt: Option<int>,
    description: string)

  // ----- moderation -----

  datatype ModActionType =
    | FreezeUser | UnfreezeUser | AwardCredits | ReverseTransaction
    | ResolveDispute | AdjustRateLimit | FlagFraud

  datatype DisputeStatus = DisputeOpen | UnderReview | Resolved | Closed

  datatype DisputeOutcome = FavorInitiator | FavorRespondent | Split | Dismissed

  /** The outcome's string value, as written into refund descriptions. */
  function OutcomeName(o: DisputeOutcome): string {
    match o
    case FavorInitiator => "favor_initiator"
    case FavorRespondent => "favor_respondent"
    case Split => "split"
    case Dismissed => "dismissed"
  }

  /** One entry of a resolution's credit allocation; `userId` is `None` when the party was never set. */
  datatype Allocation = Allocation(userId: Option<string>, amount: int)

  datatype DisputeResolution = DisputeResolution(
    resolverId: string,
    resolverUsername: string,
    outcome: DisputeOutcome,
    creditAllocation: seq<Allocation>,
    reason: string,
    resolvedAt: int)

  datatype Dispute = Dispute(
    id: string,
    gigId: string,
    initiatorId: string,
    respondentId: Option<string>,
    reason: string,
    evidence: string,
    status: DisputeStatus,
    escrowAmount: int,
    createdAt: int,
    resolvedAt: Option<int>,
    resolutionDetails: Option<DisputeResolution>)

  /** The `details` of a dispute-resolution audit record. */
  datatype ActionDetails = ActionDetails(outcome: DisputeOutcome, creditAllocation: seq<Allocation>)

  datatype ModerationAction = ModerationAction(
    id: string,
    actionType: ModActionType,
    moderatorId: string,
    moderatorUsername: string,
    targetUserId: Option<string>,
    targetGigId: Option<string>,
    reason: string,
    details: Option<ActionDetails>,
    createdAt: int)

  datatype TrustLevel = New | Trusted | Veteran

  datatype UserModerationStatus = UserModerationStatus(
    userId: string,
    isFrozen: bool,
    freezeReason: Option<string>,
    frozenAt: Option<int>,
    frozenBy: Option<string>,
    trustLevel: TrustLevel,
    reputation: int)

  // ----- weekly events -----

  datatype EventTheme = TechTheme | CreativeTheme | EducationTheme | CareTheme | MixedTheme

  datatype EventStatus = Upcoming | Active | EventCompleted | Expired

  /** The enumeration's string value (`EventTheme.TECH === 'tech'`, ...). */
  function ThemeName(t: EventTheme): string {
    match t
    case TechTheme => "tech"
    case CreativeTheme => "creative"
    case EducationTheme => "education"
    case CareTheme => "care"
    case MixedTheme => "mixed"
  }

  datatype WeeklyEvent = WeeklyEvent(
    id: string,
    title: string,
    description: string,
    theme: EventTheme,
    status: EventStatus,
    goalAmount: int,
    currentProgress: int,
    rewardPerParticipant: int,
    startDate: int,
    endDate: int,
    participants: seq<string>,
    createdAt: int,
    completedAt: Option<int>)

  // ----- leaderboards -----

  datatype LeaderboardCategory = TopHelpers | FastestResponders | DiverseSkillers | WeeklyChampions

  datatype LeaderboardPeriod = Weekly | Seasonal | AllTime

  /** Per-user counters; `averageResponseTime` is carried as whole minutes and never recomputed here. */
  datatype UserStats = UserStats(
    userId: string,
    completedGigs: int,
    averageResponseTime: int,
    uniqueCategories: seq<GigCategory>,
    weeklyCompletions: int,
    seasonalCompletions: int,
    lastActivityAt: int)

  datatype LeaderboardEntry = LeaderboardEntry(
    userId: string,
    username: string,
    rank: int,
    score: int,
    category: LeaderboardCategory,
    period: LeaderboardPeriod)

  // ----- errors -----

  /** The `error` strings the services return, one constructor per message. */
  datatype Error =
    | UserNotFound                        // 'User not found'
    | TitleTooShort                       // 'Title must be at least 10 characters long'
    | DescriptionTooShort                 // 'Description must be at least 20 characters long'
    | InsufficientCredits(have: int, need: int)  // 'Insufficient time credits. ...'
    | GigNotFound                         // 'Gig not found'
    | CannotAcceptOwnGig                  // 'Cannot accept your own gig'
    | GigNoLongerAvailable                // 'Gig is no longer available'
    | NotGigParticipant                   // 'Only gig creator or assignee can confirm completion'
    | InvalidStatusForConfirmation        // 'Gig must be assigned, in progress, or awaiting confirmation ...'
    | InvalidGigForPayment                // 'Invalid gig for payment'
    | UsersNotFoundForPayment             // 'Users not found for payment'
    | TransactionNotFound                 // 'Transaction not found'
    | TransactionNotPending               // 'Transaction is not in pending status'
    | UsersNotFound                       // 'Users not found'
    | InsufficientBalance                 // 'Insufficient balance'
    | OnlyAssigneeCanStart                // 'Only assigned user can start the gig'
    | GigMustBeAssigned                   // 'Gig must be assigned to start'
    | GigNotCompleted                     // 'Gig not found or not completed'
    | DisputeWindowPassed                 // 'Dispute window (24 hours) has passed'
    | DisputeNotFound                     // 'Dispute not found'
    | DisputeAlreadyResolved              // 'Dispute already resolved'
    | EventNotCompleted                   // 'Event not found or not completed'
    | GigOrUserNotFound                   // 'Gig or user not found'
    | NoCurrentUser                       // 'Unable to get current user'
}
