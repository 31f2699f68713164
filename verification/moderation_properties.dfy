/**
 * Properties of disputes that relate several calls: resolve-once, who gets
 * credited, that resolution never debits anyone, that refunds are the only
 * records it adds, and that the respondent is the other party of the gig.
 */
module ModerationProperties {
  import opened Wrappers
  import opened Tables
  import opened Types
  import opened Timebank
  import opened GigProperties
  import opened ModerationService

  /** A dispute is resolved at most once: the second attempt is refused. */
  lemma ResolveOnce(s: State, disputeId: string, resolverId: string, resolverUsername: string,
                    outcome: DisputeOutcome, outcome2: DisputeOutcome, reason: string,
                    actionId: string, actionId2: string, now: int, later: int)
    requires ResolveDisputeOp(s, disputeId, resolverId, resolverUsername, outcome, reason, actionId, now).Ok?
    ensures var s1 := ResolveDisputeOp(s, disputeId, resolverId, resolverUsername, outcome, reason, actionId, now).newState;
      ResolveDisputeOp(s1, disputeId, resolverId, resolverUsername, outcome2, reason, actionId2, later)
      == Fail(DisputeAlreadyResolved)
  {
  }

  /** With non-negative amounts, nobody's allocation share is negative. */
  lemma {:induction false} AllocatedToNonNegative(a: seq<Allocation>, k: string)
    requires forall i :: 0 <= i < |a| ==> a[i].amount >= 0
    ensures AllocatedTo(a, k) >= 0
    decreases |a|
  {
    if a != [] {
      AllocatedToNonNegative(a[1..], k);
    }
  }

  /** Resolving a dispute with a non-negative escrow never lowers a balance. */
  lemma ResolveNeverDebits(s: State, disputeId: string, resolverId: string, resolverUsername: string,
                           outcome: DisputeOutcome, reason: string, actionId: string, now: int, k: string)
    requires disputeId in s.disputes.rows && s.disputes.rows[disputeId].escrowAmount >= 0
    requires k in s.users.rows
    ensures var r := ResolveDisputeOp(s, disputeId, resolverId, resolverUsername, outcome, reason, actionId, now);
      r.Ok? ==> k in r.newState.users.rows && r.newState.users.rows[k].timeCredits >= s.users.rows[k].timeCredits
  {
    var d := s.disputes.rows[disputeId];
    AllocatedToNonNegative(Allocations(d, outcome), k);
  }

  /** FAVOR_INITIATOR credits the whole escrow to a registered initiator. */
  lemma FavorInitiatorCredits(s: State, disputeId: string, resolverId: string, resolverUsername: string,
                              reason: string, actionId: string, now: int)
    requires disputeId in s.disputes.rows && s.disputes.rows[disputeId].status == DisputeOpen
    requires s.disputes.rows[disputeId].initiatorId in s.users.rows
    ensures var d := s.disputes.rows[disputeId];
      var r := ResolveDisputeOp(s, disputeId, resolverId, resolverUsername, FavorInitiator, reason, actionId, now);
      && r.Ok?
      && r.newState.users.rows[d.initiatorId].timeCredits == s.users.rows[d.initiatorId].timeCredits + d.escrowAmount
  {
  }

  /**
   * SPLIT between two distinct registered parties credits the initiator the
   * lower half of the escrow and the respondent the rest.
   */
  lemma SplitCredits(s: State, disputeId: string, resolverId: string, resolverUsername: string,
                     reason: string, actionId: string, now: int)
    requires disputeId in s.disputes.rows && s.disputes.rows[disputeId].status == DisputeOpen
    requires var d := s.disputes.rows[disputeId];
      && d.initiatorId in s.users.rows && d.respondentId.Some? && d.respondentId.value in s.users.rows
      && d.respondentId.value != d.initiatorId
    ensures var d := s.disputes.rows[disputeId];
      var r := ResolveDisputeOp(s, disputeId, resolverId, resolverUsername, Split, reason, actionId, now);
      && r.Ok?
      && r.newState.users.rows[d.initiatorId].timeCredits == s.users.rows[d.initiatorId].timeCredits + d.escrowAmount / 2
      && r.newState.users.rows[d.respondentId.value].timeCredits
         == s.users.rows[d.respondentId.value].timeCredits + (d.escrowAmount - d.escrowAmount / 2)
  {
    var d := s.disputes.rows[disputeId];
    var a := Allocations(d, Split);
    var i := d.initiatorId;
    var j := d.respondentId.value;
    assert a[1..][0] == a[1] && a[1..][1..] == [];
    assert AllocatedTo(a[1..], i) == 0 + AllocatedTo(a[1..][1..], i);
    assert AllocatedTo(a[1..], j) == a[1].amount + AllocatedTo(a[1..][1..], j);
    assert AllocatedTo(a, i) == d.escrowAmount / 2;
    assert AllocatedTo(a, d.respondentId.value) == d.escrowAmount - d.escrowAmount / 2;
  }

  /** DISMISSED resolves the dispute without touching a balance or a transaction. */
  lemma DismissedMovesNothing(s: State, disputeId: string, resolverId: string, resolverUsername: string,
                              reason: string, actionId: string, now: int)
    requires disputeId in s.disputes.rows && s.disputes.rows[disputeId].status == DisputeOpen
    ensures var r := ResolveDisputeOp(s, disputeId, resolverId, resolverUsername, Dismissed, reason, actionId, now);
      r.Ok? && r.newState.users == s.users && r.newState.transactions == s.transactions
  {
  }

  /**
   * Resolution adds only refunds and keeps the rest of the ledger: every
   * transaction afterwards was already there, or is a completed
   * DISPUTE_REFUND from the system account for this dispute's gig to a
   * registered user; and every earlier transaction outside the refund keys
   * is kept as it was.
   */
  lemma ResolveKeepsLedger(s: State, disputeId: string, resolverId: string, resolverUsername: string,
                           outcome: DisputeOutcome, reason: string, actionId: string, now: int)
    requires disputeId in s.disputes.rows && s.disputes.rows[disputeId].status == DisputeOpen
    ensures var d := s.disputes.rows[disputeId];
      var txs := ResolveDisputeOp(s, disputeId, resolverId, resolverUsername, outcome, reason, actionId, now).newState.transactions;
      && (forall k :: k in txs.rows ==>
            (k in s.transactions.rows && txs.rows[k] == s.transactions.rows[k])
            || (IsRefund(txs.rows[k], disputeId, d.gigId) && txs.rows[k].toUserId in s.users.rows))
      && (forall k :: k in s.transactions.rows && k !in RefundKeys(s.users.rows.Keys, Allocations(d, outcome), disputeId) ==>
            k in txs.rows && txs.rows[k] == s.transactions.rows[k])
  {
  }

  /** FAVOR_INITIATOR records the whole escrow as the registered initiator's refund. */
  lemma FavorInitiatorRefund(s: State, disputeId: string, resolverId: string, resolverUsername: string,
                             reason: string, actionId: string, now: int)
    requires disputeId in s.disputes.rows && s.disputes.rows[disputeId].status == DisputeOpen
    requires s.disputes.rows[disputeId].initiatorId in s.users.rows
    ensures var d := s.disputes.rows[disputeId];
      var r := ResolveDisputeOp(s, disputeId, resolverId, resolverUsername, FavorInitiator, reason, actionId, now);
      && r.Ok?
      && Get(r.newState.transactions, RefundId(disputeId, d.initiatorId))
         == Some(RefundRecord(disputeId, d.gigId, d.initiatorId, d.escrowAmount, FavorInitiator, now))
  {
    ResolveRefundAt(s, disputeId, resolverId, resolverUsername, FavorInitiator, reason, actionId, now, 0);
  }

  /** FAVOR_RESPONDENT records the whole escrow as the registered respondent's refund. */
  lemma FavorRespondentRefund(s: State, disputeId: string, resolverId: string, resolverUsername: string,
                              reason: string, actionId: string, now: int)
    requires disputeId in s.disputes.rows && s.disputes.rows[disputeId].status == DisputeOpen
    requires var d := s.disputes.rows[disputeId]; d.respondentId.Some? && d.respondentId.value in s.users.rows
    ensures var d := s.disputes.rows[disputeId];
      var r := ResolveDisputeOp(s, disputeId, resolverId, resolverUsername, FavorRespondent, reason, actionId, now);
      && r.Ok?
      && Get(r.newState.transactions, RefundId(disputeId, d.respondentId.value))
         == Some(RefundRecord(disputeId, d.gigId, d.respondentId.value, d.escrowAmount, FavorRespondent, now))
  {
    ResolveRefundAt(s, disputeId, resolverId, resolverUsername, FavorRespondent, reason, actionId, now, 0);
  }

  /**
   * SPLIT records the lower half of the escrow as the refund of a registered
   * initiator who is not also the respondent.
   */
  lemma SplitRefundsInitiator(s: State, disputeId: string, resolverId: string, resolverUsername: string,
                              reason: string, actionId: string, now: int)
    requires disputeId in s.disputes.rows && s.disputes.rows[disputeId].status == DisputeOpen
    requires var d := s.disputes.rows[disputeId]; d.initiatorId in s.users.rows && d.respondentId != Some(d.initiatorId)
    ensures var d := s.disputes.rows[disputeId];
      var r := ResolveDisputeOp(s, disputeId, resolverId, resolverUsername, Split, reason, actionId, now);
      && r.Ok?
      && Get(r.newState.transactions, RefundId(disputeId, d.initiatorId))
         == Some(RefundRecord(disputeId, d.gigId, d.initiatorId, d.escrowAmount / 2, Split, now))
  {
    var d := s.disputes.rows[disputeId];
    var a := Allocations(d, Split);
    assert LastFor(a, 0);
    ResolveRefundAt(s, disputeId, resolverId, resolverUsername, Split, reason, actionId, now, 0);
  }

  /**
   * SPLIT records the rest of the escrow as the refund of a registered
   * respondent. It is written last, so when a self-assigned gig makes the
   * initiator the respondent too, this is the share on record.
   */
  lemma SplitRefundsRespondent(s: State, disputeId: string, resolverId: string, resolverUsername: string,
                               reason: string, actionId: string, now: int)
    requires disputeId in s.disputes.rows && s.disputes.rows[disputeId].status == DisputeOpen
    requires var d := s.disputes.rows[disputeId]; d.respondentId.Some? && d.respondentId.value in s.users.rows
    ensures var d := s.disputes.rows[disputeId];
      var r := ResolveDisputeOp(s, disputeId, resolverId, resolverUsername, Split, reason, actionId, now);
      && r.Ok?
      && Get(r.newState.transactions, RefundId(disputeId, d.respondentId.value))
         == Some(RefundRecord(disputeId, d.gigId, d.respondentId.value, d.escrowAmount - d.escrowAmount / 2, Split, now))
  {
    var d := s.disputes.rows[disputeId];
    var a := Allocations(d, Split);
    assert a[1] == Allocation(d.respondentId, d.escrowAmount - d.escrowAmount / 2);
    assert LastFor(a, 1);
    ResolveRefundAt(s, disputeId, resolverId, resolverUsername, Split, reason, actionId, now, 1);
  }

  /** The refund written for the `i`-th allocation, when no later one names the same user. */
  lemma ResolveRefundAt(s: State, disputeId: string, resolverId: string, resolverUsername: string,
                        outcome: DisputeOutcome, reason: string, actionId: string, now: int, i: nat)
    requires disputeId in s.disputes.rows && s.disputes.rows[disputeId].status == DisputeOpen
    requires var a := Allocations(s.disputes.rows[disputeId], outcome);
      i < |a| && Registered(a[i], s.users.rows.Keys) && LastFor(a, i)
    ensures var d := s.disputes.rows[disputeId];
      var a := Allocations(d, outcome);
      var r := ResolveDisputeOp(s, disputeId, resolverId, resolverUsername, outcome, reason, actionId, now);
      && r.Ok?
      && Get(r.newState.transactions, RefundId(disputeId, a[i].userId.value))
         == Some(RefundRecord(disputeId, d.gigId, a[i].userId.value, a[i].amount, outcome, now))
  {
  }

  /**
   * For a well-formed gig, a dispute opened by either party names the other
   * party as respondent.
   */
  lemma RespondentIsOtherParty(s: State, gigId: string, initiatorId: string, reason: string, evidence: string,
                               disputeId: string, now: int)
    requires gigId in s.gigs.rows && GigWellFormed(s.gigs.rows[gigId])
    requires var g := s.gigs.rows[gigId]; initiatorId == g.createdBy || g.assignedTo == Some(initiatorId)
    requires OpenDispute(s, gigId, initiatorId, reason, evidence, disputeId, now).Ok?
    ensures var g := s.gigs.rows[gigId];
      var d := OpenDispute(s, gigId, initiatorId, reason, evidence, disputeId, now).newState.disputes.rows[disputeId];
      && d.respondentId.Some? && d.respondentId.value != initiatorId
      && {initiatorId, d.respondentId.value} == {g.createdBy, g.assignedTo.value}
  {
  }

  /** Under the ledger invariant only COMPLETED gigs can be disputed. */
  lemma DisputesOnlyCompletedGigs(s: State, gigId: string, initiatorId: string, reason: string, evidence: string,
                                  disputeId: string, now: int)
    requires LedgerInvariant(s)
    requires OpenDispute(s, gigId, initiatorId, reason, evidence, disputeId, now).Ok?
    ensures s.gigs.rows[gigId].status == Completed
  {
  }
}
