/**
 * Disputes over completed gigs and the moderation gate: the 24-hour dispute
 * window, outcome-based credit allocation funded by the system account,
 * resolve-once, freezing, trust levels and the rate-limit decision.
 */
module ModerationService {
  import opened Wrappers
  import opened Seqs
  import opened Tables
  import opened Types
  import opened Timebank

  /** Disputes may be opened up to 24 hours (inclusive) after completion. */
  const DisputeWindowMs: int := 24 * 60 * 60 * 1000
  /** Gig-creation limits per hour, by trust level. */
  const DefaultRateLimit: int := 5
  const TrustedRateLimit: int := 7
  const VeteranRateLimit: int := 10

  // ----- trust and rate limits -----

  /** `calculateTrustLevel`: NEW below 11, TRUSTED from 11, VETERAN from 51. */
  function CalculateTrustLevel(reputation: int): (t: TrustLevel)
    ensures t == Veteran <==> reputation >= 51
    ensures t == Trusted <==> 11 <= reputation < 51
    ensures t == New <==> reputation < 11
  {
    if reputation >= 51 then Veteran
    else if reputation >= 11 then Trusted
    else New
  }

  /** Position of a trust level in NEW < TRUSTED < VETERAN. */
  function TrustRank(t: TrustLevel): nat {
    match t
    case New => 0
    case Trusted => 1
    case Veteran => 2
  }

  /** More reputation never lowers the trust level. */
  lemma TrustLevelMonotone(a: int, b: int)
    requires a <= b
    ensures TrustRank(CalculateTrustLevel(a)) <= TrustRank(CalculateTrustLevel(b))
  {
  }

  /** The hourly limit granted to a trust level. */
  function RateLimitFor(t: TrustLevel): (n: int)
    ensures t == Veteran ==> n == VeteranRateLimit
    ensures t == Trusted ==> n == TrustedRateLimit
    ensures t == New ==> n == DefaultRateLimit
  {
    match t
    case Veteran => VeteranRateLimit
    case Trusted => TrustedRateLimit
    case New => DefaultRateLimit
  }

  /** `{ allowed, remainingCount? }` */
  datatype RateDecision = RateDecision(allowed: bool, remainingCount: Option<int>)

  /**
   * `checkRateLimit`: unknown and frozen users are denied; anyone else is
   * allowed with the limit of their recorded trust level, or of the level
   * their reputation earns when no moderation status is recorded.
   */
  function CheckRateLimit(s: State, userId: string): (r: RateDecision)
    ensures r.allowed <==>
      userId in s.users.rows
      && !(userId in s.userModerationStatus.rows && s.userModerationStatus.rows[userId].isFrozen)
    ensures !r.allowed ==> r.remainingCount.None?
    ensures r.allowed && userId in s.userModerationStatus.rows
            ==> r.remainingCount == Some(RateLimitFor(s.userModerationStatus.rows[userId].trustLevel))
    ensures r.allowed && userId !in s.userModerationStatus.rows
            ==> r.remainingCount == Some(RateLimitFor(CalculateTrustLevel(s.users.rows[userId].reputation)))
  {
    if userId !in s.users.rows then RateDecision(false, None)
    else if userId in s.userModerationStatus.rows && s.userModerationStatus.rows[userId].isFrozen then
      RateDecision(false, None)
    else
      var level := if userId in s.userModerationStatus.rows then s.userModerationStatus.rows[userId].trustLevel
                   else CalculateTrustLevel(s.users.rows[userId].reputation);
      RateDecision(true, Some(RateLimitFor(level)))
  }

  // ----- freezing -----

  /** The status of a user nobody has moderated. */
  function Default(userId: string): UserModerationStatus {
    UserModerationStatus(userId, false, None, None, None, New, 0)
  }

  /** The audit record of a moderator action on a user. */
  function UserAction(kind: ModActionType, actionId: string, moderatorId: string, moderatorUsername: string,
                      target: string, reason: string, now: int): ModerationAction
  {
    ModerationAction(actionId, kind, moderatorId, moderatorUsername, Some(target), None, reason, None, now)
  }

  /** `freezeUser`: a registered user is frozen and the action is logged. */
  function FreezeUser(s: State, target: string, moderatorId: string, moderatorUsername: string,
                      reason: string, actionId: string, now: int): (r: Reply<()>)
    ensures !r.FailRecorded?
    ensures r.Ok? <==> target in s.users.rows
    ensures target !in s.users.rows ==> r == Fail(UserNotFound)
    ensures r.Ok? ==> target in r.newState.userModerationStatus.rows
    ensures r.Ok? ==>
      var st := Get(r.newState.userModerationStatus, target).GetOr(Default(target));
      && st.isFrozen && st.userId == target
      && st.freezeReason == Some(reason) && st.frozenBy == Some(moderatorId) && st.frozenAt == Some(now)
      && st.reputation == s.users.rows[target].reputation
      && st.trustLevel == CalculateTrustLevel(s.users.rows[target].reputation)
    ensures r.Ok? ==> forall k :: k != target ==> Get(r.newState.userModerationStatus, k) == Get(s.userModerationStatus, k)
    ensures r.Ok? ==> Get(r.newState.moderationActions, actionId)
                      == Some(UserAction(ModActionType.FreezeUser, actionId, moderatorId, moderatorUsername, target, reason, now))
    ensures r.Ok? ==> r.newState.(moderationActions := s.moderationActions, userModerationStatus := s.userModerationStatus) == s
  {
    if target !in s.users.rows then Fail(UserNotFound)
    else
      var rep := s.users.rows[target].reputation;
      var status := UserModerationStatus(target, true, Some(reason), Some(now), Some(moderatorId),
                                         CalculateTrustLevel(rep), rep);
      var action := UserAction(ModActionType.FreezeUser, actionId, moderatorId, moderatorUsername, target, reason, now);
      Ok(s.(moderationActions := Put(s.moderationActions, actionId, action),
            userModerationStatus := Put(s.userModerationStatus, target, status)), ())
  }

  /**
   * `unfreezeUser`: always succeeds, even for an unknown user; the freeze
   * fields are cleared and the recorded trust level and reputation are kept
   * (NEW and 0 when nothing was recorded).
   */
  function UnfreezeUser(s: State, target: string, moderatorId: string, moderatorUsername: string,
                        reason: string, actionId: string, now: int): (r: Reply<()>)
    ensures r.Ok?
    ensures target in r.newState.userModerationStatus.rows
    ensures
      var st := Get(r.newState.userModerationStatus, target).GetOr(Default(target));
      && !st.isFrozen && st.userId == target
      && st.freezeReason.None? && st.frozenAt.None? && st.frozenBy.None?
      && (target in s.userModerationStatus.rows ==>
            st.trustLevel == s.userModerationStatus.rows[target].trustLevel
            && st.reputation == s.userModerationStatus.rows[target].reputation)
      && (target !in s.userModerationStatus.rows ==> st.trustLevel == New && st.reputation == 0)
    ensures forall k :: k != target ==> Get(r.newState.userModerationStatus, k) == Get(s.userModerationStatus, k)
    ensures Get(r.newState.moderationActions, actionId)
            == Some(UserAction(ModActionType.UnfreezeUser, actionId, moderatorId, moderatorUsername, target, reason, now))
    ensures r.newState.(moderationActions := s.moderationActions, userModerationStatus := s.userModerationStatus) == s
  {
    var existing := Get(s.userModerationStatus, target);
    var level := if existing.Some? then existing.value.trustLevel else New;
    var rep := if existing.Some? then existing.value.reputation else 0;
    var status := UserModerationStatus(target, false, None, None, None, level, rep);
    var action := UserAction(ModActionType.UnfreezeUser, actionId, moderatorId, moderatorUsername, target, reason, now);
    Ok(s.(moderationActions := Put(s.moderationActions, actionId, action),
          userModerationStatus := Put(s.userModerationStatus, target, status)), ())
  }

  /** Unfreezing a frozen user keeps the trust level the freeze recorded. */
  lemma FreezeThenUnfreeze(s: State, target: string, moderatorId: string, moderatorUsername: string,
                           reason: string, freezeId: string, unfreezeId: string, now: int, later: int)
    requires target in s.users.rows
    ensures var s1 := FreezeUser(s, target, moderatorId, moderatorUsername, reason, freezeId, now).newState;
      var s2 := UnfreezeUser(s1, target, moderatorId, moderatorUsername, reason, unfreezeId, later).newState;
      && !s2.userModerationStatus.rows[target].isFrozen
      && s2.userModerationStatus.rows[target].trustLevel == CalculateTrustLevel(s.users.rows[target].reputation)
      && CheckRateLimit(s2, target).allowed
      && !CheckRateLimit(s1, target).allowed
  {
  }

  // ----- queries -----

  /** `getOpenDisputes`: the OPEN disputes, in table order. */
  function GetOpenDisputes(s: State): (r: seq<Dispute>)
    ensures forall d :: d in r <==>
      (d.status == DisputeOpen && exists k :: k in s.disputes.rows && s.disputes.rows[k] == d)
    ensures forall d :: multiset(r)[d] == if d.status == DisputeOpen then multiset(Values(s.disputes))[d] else 0
  {
    var r := Filter(Values(s.disputes), (d: Dispute) => d.status == DisputeOpen);
    forall d ensures d in Values(s.disputes) <==> exists k :: k in s.disputes.rows && s.disputes.rows[k] == d {
      ValuesAreRows(s.disputes, d);
    }
    r
  }

  /** `getFrozenUsers`: the moderation statuses marked frozen, in table order. */
  function GetFrozenUsers(s: State): (r: seq<UserModerationStatus>)
    ensures forall m :: m in r <==>
      (m.isFrozen && exists k :: k in s.userModerationStatus.rows && s.userModerationStatus.rows[k] == m)
    ensures forall m :: multiset(r)[m] == if m.isFrozen then multiset(Values(s.userModerationStatus))[m] else 0
  {
    var r := Filter(Values(s.userModerationStatus), (m: UserModerationStatus) => m.isFrozen);
    forall m ensures m in Values(s.userModerationStatus) <==>
                     exists k :: k in s.userModerationStatus.rows && s.userModerationStatus.rows[k] == m {
      ValuesAreRows(s.userModerationStatus, m);
    }
    r
  }

  // ----- opening a dispute -----

  /** Has the dispute window closed `now` for a gig completed at `completedAt`? */
  predicate WindowPassed(completedAt: int, now: int) {
    now - completedAt > DisputeWindowMs
  }

  /** The other party: the assignee when the creator complains, otherwise the creator. */
  function Respondent(g: Gig, initiatorId: string): (r: Option<string>)
    ensures initiatorId == g.createdBy ==> r == g.assignedTo
    ensures initiatorId != g.createdBy ==> r == Some(g.createdBy)
  {
    if initiatorId == g.createdBy then g.assignedTo else Some(g.createdBy)
  }

  /**
   * `openDispute`: against a gig that has a completion time, within 24 hours
   * of it; the escrow is the gig's offered credits. The initiator is not
   * checked to be a party to the gig.
   */
  function OpenDispute(s: State, gigId: string, initiatorId: string, reason: string, evidence: string,
                       disputeId: string, now: int): (r: Reply<string>)
    ensures !r.FailRecorded?
    ensures r.Ok? <==>
      gigId in s.gigs.rows && s.gigs.rows[gigId].completedAt.Some?
      && !WindowPassed(s.gigs.rows[gigId].completedAt.value, now)
    ensures (gigId !in s.gigs.rows || s.gigs.rows[gigId].completedAt.None?) ==> r == Fail(GigNotCompleted)
    ensures (gigId in s.gigs.rows && s.gigs.rows[gigId].completedAt.Some?
             && WindowPassed(s.gigs.rows[gigId].completedAt.value, now)) ==> r == Fail(DisputeWindowPassed)
    ensures r.Ok? ==>
      var g := s.gigs.rows[gigId];
      && r.value == disputeId
      && Get(r.newState.disputes, disputeId)
         == Some(Dispute(disputeId, gigId, initiatorId, Respondent(g, initiatorId), reason, evidence,
                         DisputeOpen, g.timeCreditsOffered, now, None, None))
      && (forall k :: k != disputeId ==> Get(r.newState.disputes, k) == Get(s.disputes, k))
      && r.newState.(disputes := s.disputes) == s
  {
    if gigId !in s.gigs.rows || s.gigs.rows[gigId].completedAt.None? then Fail(GigNotCompleted)
    else
      var g := s.gigs.rows[gigId];
      if WindowPassed(g.completedAt.value, now) then Fail(DisputeWindowPassed)
      else
        var d := Dispute(disputeId, gigId, initiatorId, Respondent(g, initiatorId), reason, evidence,
                         DisputeOpen, g.timeCreditsOffered, now, None, None);
        Ok(s.(disputes := Put(s.disputes, disputeId, d)), disputeId)
  }

  /** The window is closed inclusively: exactly 24 hours after completion is still in time, one millisecond later is not. */
  lemma DisputeWindowBoundary(completedAt: int)
    ensures !WindowPassed(completedAt, completedAt + DisputeWindowMs)
    ensures WindowPassed(completedAt, completedAt + DisputeWindowMs + 1)
  {
  }

  // ----- resolving a dispute -----

  /** The credit allocation of an outcome over a dispute's escrow. */
  function Allocations(d: Dispute, outcome: DisputeOutcome): (a: seq<Allocation>)
    ensures outcome == FavorInitiator ==> a == [Allocation(Some(d.initiatorId), d.escrowAmount)]
    ensures outcome == FavorRespondent ==> a == [Allocation(d.respondentId, d.escrowAmount)]
    ensures outcome == Dismissed ==> a == []
    ensures outcome == Split ==>
      && |a| == 2
      && a[0].userId == Some(d.initiatorId) && a[1].userId == d.respondentId
      && a[0].amount + a[1].amount == d.escrowAmount
      && a[0].amount <= a[1].amount <= a[0].amount + 1
  {
    match outcome
    case FavorInitiator => [Allocation(Some(d.initiatorId), d.escrowAmount)]
    case FavorRespondent => [Allocation(d.respondentId, d.escrowAmount)]
    case Split =>
      // `Math.floor(e / 2)`: Dafny's `/` with a positive divisor rounds down as well.
      var half := d.escrowAmount / 2;
      [Allocation(Some(d.initiatorId), half), Allocation(d.respondentId, d.escrowAmount - half)]
    case Dismissed => []
  }

  /** The sum of the amounts allocated. */
  function AllocatedTotal(a: seq<Allocation>): int {
    if a == [] then 0 else a[0].amount + AllocatedTotal(a[1..])
  }

  /** What the allocation gives the user `k`. */
  function AllocatedTo(a: seq<Allocation>, k: string): int {
    if a == [] then 0 else (if a[0].userId == Some(k) then a[0].amount else 0) + AllocatedTo(a[1..], k)
  }

  /** Every outcome except DISMISSED allocates exactly the escrow; SPLIT gives the respondent the odd unit. */
  lemma AllocationsSumToEscrow(d: Dispute, outcome: DisputeOutcome)
    ensures outcome != Dismissed ==> AllocatedTotal(Allocations(d, outcome)) == d.escrowAmount
    ensures outcome == Dismissed ==> AllocatedTotal(Allocations(d, outcome)) == 0
    ensures outcome == Split ==>
      Allocations(d, outcome)[0].amount == d.escrowAmount / 2
      && Allocations(d, outcome)[1].amount == d.escrowAmount - d.escrowAmount / 2
  {
    var a := Allocations(d, outcome);
    if outcome == Split {
      assert a[1..][0] == a[1] && a[1..][1..] == [];
      assert AllocatedTotal(a[1..]) == a[1].amount + AllocatedTotal(a[1..][1..]);
    } else if outcome != Dismissed {
      assert a[1..] == [];
    }
  }

  /** An escrow of 7 split: 3 to the initiator, 4 to the respondent. */
  lemma SplitOfSeven(d: Dispute)
    requires d.escrowAmount == 7
    ensures Allocations(d, Split)[0].amount == 3 && Allocations(d, Split)[1].amount == 4
  {
  }

  /** The key of the refund transaction minted for `userId`. */
  function RefundId(disputeId: string, userId: string): string {
    "tx_dispute_" + disputeId + "_" + userId
  }

  /** The completed DISPUTE_REFUND minted from the system account. */
  function RefundRecord(disputeId: string, gigId: string, userId: string, amount: int,
                        outcome: DisputeOutcome, now: int): (t: Transaction)
    ensures t.fromUserId == SystemUserId && t.toUserId == userId && t.amount == amount
    ensures t.txType == DisputeRefund && t.status == TxCompleted && t.id == RefundId(disputeId, userId)
  {
    Transaction(RefundId(disputeId, userId), SystemUserId, userId, gigId, amount, DisputeRefund, TxCompleted,
                now, Some(now), "Dispute resolution: " + OutcomeName(outcome))
  }

  /** A completed refund minted from the system account for this dispute. */
  predicate IsRefund(t: Transaction, disputeId: string, gigId: string) {
    && t.txType == DisputeRefund && t.status == TxCompleted && t.fromUserId == SystemUserId
    && t.gigId == gigId && t.id == RefundId(disputeId, t.toUserId)
  }

  /** Is the allocation to a user the table knows? */
  predicate Registered(x: Allocation, registered: set<string>) {
    x.userId.Some? && x.userId.value in registered
  }

  /**
   * The balance half of the allocation loop: each allocation to a
   * registered user raises that user's balance; later allocations see
   * earlier ones.
   */
  function CreditAllocations(users: Table<User>, a: seq<Allocation>): (r: Table<User>)
    ensures r.order == users.order && r.rows.Keys == users.rows.Keys
    ensures forall k :: k in users.rows ==>
      r.rows[k] == users.rows[k].(timeCredits := users.rows[k].timeCredits + AllocatedTo(a, k))
    decreases |a|
  {
    if a == [] then users
    else if Registered(a[0], users.rows.Keys) then
      var id := a[0].userId.value;
      var u := users.rows[id];
      CreditAllocations(Put(users, id, u.(timeCredits := u.timeCredits + a[0].amount)), a[1..])
    else
      CreditAllocations(users, a[1..])
  }

  /** The refund keys the allocation loop writes: one per registered user it names. */
  function RefundKeys(registered: set<string>, a: seq<Allocation>, disputeId: string): set<string> {
    set x | x in a && Registered(x, registered) :: RefundId(disputeId, x.userId.value)
  }

  /** Peeling the first allocation off the loop peels its key (if any) off the key set. */
  lemma RefundKeysCons(registered: set<string>, a: seq<Allocation>, disputeId: string)
    requires a != []
    ensures RefundKeys(registered, a, disputeId)
            == (if Registered(a[0], registered) then {RefundId(disputeId, a[0].userId.value)} else {})
               + RefundKeys(registered, a[1..], disputeId)
  {
    assert a == [a[0]] + a[1..];
    forall x | x in a ensures x == a[0] || x in a[1..] { }
  }

  /** No allocation names `userId`, so its refund key is not written. */
  lemma {:induction false} RefundKeyAbsent(registered: set<string>, a: seq<Allocation>, disputeId: string, userId: string)
    requires forall j :: 0 <= j < |a| ==> a[j].userId != Some(userId)
    ensures RefundId(disputeId, userId) !in RefundKeys(registered, a, disputeId)
  {
    if RefundId(disputeId, userId) in RefundKeys(registered, a, disputeId) {
      var x :| x in a && Registered(x, registered) && RefundId(disputeId, x.userId.value) == RefundId(disputeId, userId);
      RefundIdInjective(disputeId, x.userId.value, userId);
    }
  }

  /**
   * The record half of the allocation loop: each allocation to a registered
   * user writes a refund under that user's refund key. The loop never adds
   * or removes users, so `registered` is the same set throughout.
   */
  function RecordRefunds(registered: set<string>, txs: Table<Transaction>, a: seq<Allocation>,
                         disputeId: string, gigId: string, outcome: DisputeOutcome, now: int): (r: Table<Transaction>)
    ensures r.rows.Keys == txs.rows.Keys + RefundKeys(registered, a, disputeId)
    ensures forall k :: k in txs.rows && k !in RefundKeys(registered, a, disputeId) ==> r.rows[k] == txs.rows[k]
    ensures forall k :: k in r.rows ==>
      (k in txs.rows && r.rows[k] == txs.rows[k])
      || (IsRefund(r.rows[k], disputeId, gigId) && r.rows[k].toUserId in registered)
    decreases |a|
  {
    if a == [] then txs
    else
      RefundKeysCons(registered, a, disputeId);
      if Registered(a[0], registered) then
        var id := a[0].userId.value;
        RecordRefunds(registered, Put(txs, RefundId(disputeId, id), RefundRecord(disputeId, gigId, id, a[0].amount, outcome, now)),
                      a[1..], disputeId, gigId, outcome, now)
      else
        RecordRefunds(registered, txs, a[1..], disputeId, gigId, outcome, now)
  }

  /** No later allocation in `a` goes to the same user as `a[i]`. */
  predicate LastFor(a: seq<Allocation>, i: int)
    requires 0 <= i < |a|
  {
    forall j :: i < j < |a| ==> a[j].userId != a[i].userId
  }

  /** A refund already recorded for this dispute survives the rest of the loop as a refund to the same user. */
  lemma {:induction false} RecordRefundsKeeps(registered: set<string>, txs: Table<Transaction>, a: seq<Allocation>,
                                              disputeId: string, gigId: string, outcome: DisputeOutcome, now: int,
                                              userId: string)
    requires RefundId(disputeId, userId) in txs.rows
    requires IsRefund(txs.rows[RefundId(disputeId, userId)], disputeId, gigId)
    requires txs.rows[RefundId(disputeId, userId)].toUserId == userId
    ensures var r := RecordRefunds(registered, txs, a, disputeId, gigId, outcome, now);
      && RefundId(disputeId, userId) in r.rows
      && IsRefund(r.rows[RefundId(disputeId, userId)], disputeId, gigId)
      && r.rows[RefundId(disputeId, userId)].toUserId == userId
    decreases |a|
  {
    if a != [] {
      if Registered(a[0], registered) {
        var id := a[0].userId.value;
        var txs' := Put(txs, RefundId(disputeId, id), RefundRecord(disputeId, gigId, id, a[0].amount, outcome, now));
        if id != userId {
          assert RefundId(disputeId, id) != RefundId(disputeId, userId) by {
            if RefundId(disputeId, id) == RefundId(disputeId, userId) { RefundIdInjective(disputeId, id, userId); }
          }
        }
        RecordRefundsKeeps(registered, txs', a[1..], disputeId, gigId, outcome, now, userId);
      } else {
        RecordRefundsKeeps(registered, txs, a[1..], disputeId, gigId, outcome, now, userId);
      }
    }
  }

  /**
   * Every allocation to a registered user leaves a refund to that user under
   * its refund key; when no later allocation names the same user, the
   * refund is exactly that allocation's record.
   */
  lemma {:induction false} RecordRefundsWrites(registered: set<string>, txs: Table<Transaction>, a: seq<Allocation>,
                                               disputeId: string, gigId: string, outcome: DisputeOutcome, now: int,
                                               i: nat)
    requires i < |a| && Registered(a[i], registered)
    ensures var r := RecordRefunds(registered, txs, a, disputeId, gigId, outcome, now);
      && RefundId(disputeId, a[i].userId.value) in r.rows
      && IsRefund(r.rows[RefundId(disputeId, a[i].userId.value)], disputeId, gigId)
      && r.rows[RefundId(disputeId, a[i].userId.value)].toUserId == a[i].userId.value
    ensures LastFor(a, i) ==>
      var r := RecordRefunds(registered, txs, a, disputeId, gigId, outcome, now);
      && RefundId(disputeId, a[i].userId.value) in r.rows
      && r.rows[RefundId(disputeId, a[i].userId.value)]
         == RefundRecord(disputeId, gigId, a[i].userId.value, a[i].amount, outcome, now)
    decreases |a|
  {
    var txs' := if Registered(a[0], registered)
      then Put(txs, RefundId(disputeId, a[0].userId.value),
               RefundRecord(disputeId, gigId, a[0].userId.value, a[0].amount, outcome, now))
      else txs;
    assert RecordRefunds(registered, txs, a, disputeId, gigId, outcome, now)
           == RecordRefunds(registered, txs', a[1..], disputeId, gigId, outcome, now);
    if i == 0 {
      var id := a[0].userId.value;
      RecordRefundsKeeps(registered, txs', a[1..], disputeId, gigId, outcome, now, id);
      if LastFor(a, 0) {
        forall j | 0 <= j < |a[1..]| ensures a[1..][j].userId != Some(id) {
          assert a[1..][j] == a[j + 1];
        }
        RefundKeyAbsent(registered, a[1..], disputeId, id);
      }
    } else {
      if LastFor(a, i) {
        forall j | i - 1 < j < |a[1..]| ensures a[1..][j].userId != a[1..][i - 1].userId {
          assert a[1..][j] == a[j + 1];
        }
      }
      RecordRefundsWrites(registered, txs', a[1..], disputeId, gigId, outcome, now, i - 1);
    }
  }

  /**
   * What the record half of the allocation loop does to the ledger `before`:
   * the refund keys are added and nothing else; every other transaction is
   * kept; every added row is a refund to a registered user; and the refund of
   * each registered user holds the amount of the last allocation naming them.
   */
  predicate RefundsRecorded(before: Table<Transaction>, after: Table<Transaction>, registered: set<string>,
                            a: seq<Allocation>, disputeId: string, gigId: string, outcome: DisputeOutcome, now: int)
  {
    && after.rows.Keys == before.rows.Keys + RefundKeys(registered, a, disputeId)
    && (forall k :: k in before.rows && k !in RefundKeys(registered, a, disputeId) ==> after.rows[k] == before.rows[k])
    && (forall k :: k in after.rows ==>
          (k in before.rows && after.rows[k] == before.rows[k])
          || (IsRefund(after.rows[k], disputeId, gigId) && after.rows[k].toUserId in registered))
    && (forall i :: 0 <= i < |a| && Registered(a[i], registered) && LastFor(a, i) ==>
          Get(after, RefundId(disputeId, a[i].userId.value))
          == Some(RefundRecord(disputeId, gigId, a[i].userId.value, a[i].amount, outcome, now)))
  }

  /** The allocation loop's records satisfy `RefundsRecorded`. */
  lemma RecordRefundsRecorded(registered: set<string>, txs: Table<Transaction>, a: seq<Allocation>,
                              disputeId: string, gigId: string, outcome: DisputeOutcome, now: int)
    ensures RefundsRecorded(txs, RecordRefunds(registered, txs, a, disputeId, gigId, outcome, now),
                            registered, a, disputeId, gigId, outcome, now)
  {
    forall i | 0 <= i < |a| && Registered(a[i], registered) && LastFor(a, i) {
      RecordRefundsWrites(registered, txs, a, disputeId, gigId, outcome, now, i);
    }
  }

  /** Distinct users have distinct refund keys for the same dispute. */
  lemma RefundIdInjective(disputeId: string, a: string, b: string)
    requires RefundId(disputeId, a) == RefundId(disputeId, b)
    ensures a == b
  {
    var p := "tx_dispute_" + disputeId + "_";
    assert RefundId(disputeId, a) == p + a && RefundId(disputeId, b) == p + b;
    assert a == (p + a)[|p|..];
    assert b == (p + b)[|p|..];
  }

  /** The audit record of a resolution. */
  function ResolutionAction(d: Dispute, actionId: string, resolverId: string, resolverUsername: string,
                            outcome: DisputeOutcome, reason: string, now: int): ModerationAction
  {
    ModerationAction(actionId, ResolveDispute, resolverId, resolverUsername, None, Some(d.gigId), reason,
                     Some(ActionDetails(outcome, Allocations(d, outcome))), now)
  }

  /**
   * `resolveDispute`: an OPEN dispute is resolved once. Its allocation is
   * minted from the system account to the parties, and one audit record
   * targeting the gig is appended.
   */
  function ResolveDisputeOp(s: State, disputeId: string, resolverId: string, resolverUsername: string,
                            outcome: DisputeOutcome, reason: string, actionId: string, now: int): (r: Reply<()>)
    ensures !r.FailRecorded?
    ensures r.Ok? <==> disputeId in s.disputes.rows && s.disputes.rows[disputeId].status == DisputeOpen
    ensures disputeId !in s.disputes.rows ==> r == Fail(DisputeNotFound)
    ensures (disputeId in s.disputes.rows && s.disputes.rows[disputeId].status != DisputeOpen)
            ==> r == Fail(DisputeAlreadyResolved)
    ensures r.Ok? ==>
      var d := s.disputes.rows[disputeId];
      var alloc := Allocations(d, outcome);
      && Get(r.newState.disputes, disputeId)
         == Some(d.(status := Resolved, resolvedAt := Some(now),
                    resolutionDetails := Some(DisputeResolution(resolverId, resolverUsername, outcome, alloc, reason, now))))
      && (forall k :: k != disputeId ==> Get(r.newState.disputes, k) == Get(s.disputes, k))
      && Get(r.newState.moderationActions, actionId)
         == Some(ResolutionAction(d, actionId, resolverId, resolverUsername, outcome, reason, now))
      && (forall k :: k != actionId ==> Get(r.newState.moderationActions, k) == Get(s.moderationActions, k))
      && r.newState.users.rows.Keys == s.users.rows.Keys
      && (forall k :: k in s.users.rows ==>
            r.newState.users.rows[k]
            == s.users.rows[k].(timeCredits := s.users.rows[k].timeCredits + AllocatedTo(alloc, k)))
      && RefundsRecorded(s.transactions, r.newState.transactions, s.users.rows.Keys, alloc, disputeId, d.gigId, outcome, now)
      && r.newState.(users := s.users, transactions := s.transactions, disputes := s.disputes,
                     moderationActions := s.moderationActions) == s
  {
    if disputeId !in s.disputes.rows then Fail(DisputeNotFound)
    else
      var d := s.disputes.rows[disputeId];
      if d.status != DisputeOpen then Fail(DisputeAlreadyResolved)
      else
        var alloc := Allocations(d, outcome);
        var resolved := d.(status := Resolved, resolvedAt := Some(now),
                           resolutionDetails := Some(DisputeResolution(resolverId, resolverUsername, outcome, alloc, reason, now)));
        var action := ResolutionAction(d, actionId, resolverId, resolverUsername, outcome, reason, now);
        var s1 := s.(disputes := Put(s.disputes, disputeId, resolved),
                     moderationActions := Put(s.moderationActions, actionId, action));
        RecordRefundsRecorded(s.users.rows.Keys, s.transactions, alloc, disputeId, d.gigId, outcome, now);
        Ok(s1.(users := CreditAllocations(s1.users, alloc),
               transactions := RecordRefunds(s1.users.rows.Keys, s1.transactions, alloc, disputeId, d.gigId, outcome, now)), ())
  }
}
