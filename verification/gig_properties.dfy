/**
 * Properties of the gig lifecycle and the ledger: exactly one accepter,
 * idempotent settlement and payment, conservation of credits, the asymmetric
 * confirmation table, and the ledger invariant (at most one completed
 * payment per gig, and only for a completed gig) kept by every lifecycle step.
 */
module GigProperties {
  import opened Wrappers
  import opened Seqs
  import opened Tables
  import opened Types
  import opened Timebank
  import opened GigService

  // ----- exactly one accepter -----

  /**
   * After one successful accept, no second accept of the same gig succeeds;
   * a registered non-creator is told the gig is no longer available.
   */
  lemma SecondAcceptFails(s: State, gigId: string, first: string, second: string)
    requires AcceptGig(s, gigId, first).Ok?
    ensures var s1 := AcceptGig(s, gigId, first).newState;
      && !AcceptGig(s1, gigId, second).Ok?
      && ((second in s1.users.rows && second != s.gigs.rows[gigId].createdBy) ==>
            AcceptGig(s1, gigId, second) == Fail(GigNoLongerAvailable))
  {
    var s1 := AcceptGig(s, gigId, first).newState;
    assert s1.gigs.rows[gigId].status == Assigned;
  }

  // ----- settlement -----

  /** Settling a transaction that was just settled changes nothing and succeeds. */
  lemma ProcessTwiceIsIdempotent(s: State, txId: string, now: int, later: int)
    requires ProcessTransaction(s, txId, now).Ok?
    ensures var s1 := ProcessTransaction(s, txId, now).newState;
      ProcessTransaction(s1, txId, later) == Ok(s1, txId)
  {
    var s1 := ProcessTransaction(s, txId, now).newState;
    assert s1.transactions.rows[txId].status == TxCompleted;
  }

  /** A transfer between two different users leaves the total of all balances unchanged. */
  lemma TransferConserves(u: Table<User>, u': Table<User>, from: string, to: string, amount: int)
    requires Transferred(u, u', from, to, amount)
    requires from != to
    ensures TotalCredits(u') == TotalCredits(u)
    ensures u'.rows[from].timeCredits + u'.rows[to].timeCredits
            == u.rows[from].timeCredits + u.rows[to].timeCredits
  {
    var u1 := Put(u, from, u'.rows[from]);
    var u2 := Put(u1, to, u'.rows[to]);
    assert u2.rows == u'.rows by {
      assert u2.rows.Keys == u'.rows.Keys;
      forall k | k in u2.rows ensures u2.rows[k] == u'.rows[k] {
        if k != from && k != to {
          assert u2.rows[k] == u.rows[k];
        }
      }
    }
    assert u2.order == u'.order;
    assert u2 == u';
    TotalCreditsPut(u, from, u'.rows[from]);
    TotalCreditsPut(u1, to, u'.rows[to]);
  }

  /** The self-transfer quirk: paying oneself credits the full amount. */
  lemma SelfTransferMints(u: Table<User>, u': Table<User>, id: string, amount: int)
    requires Transferred(u, u', id, id, amount)
    ensures TotalCredits(u') == TotalCredits(u) + amount
  {
    assert Put(u, id, u'.rows[id]) == u' by {
      assert Put(u, id, u'.rows[id]).rows == u'.rows;
    }
    TotalCreditsPut(u, id, u'.rows[id]);
  }

  /** Settling a pending transaction between two different users conserves all credits. */
  lemma ProcessTransactionConserves(s: State, txId: string, now: int)
    requires txId in s.transactions.rows
    requires s.transactions.rows[txId].fromUserId != s.transactions.rows[txId].toUserId
    ensures !ProcessTransaction(s, txId, now).Fail? ==>
      TotalCredits(ProcessTransaction(s, txId, now).newState.users) == TotalCredits(s.users)
  {
    var r := ProcessTransaction(s, txId, now);
    var t := s.transactions.rows[txId];
    if r.Ok? && t.status == Pending {
      TransferConserves(s.users, r.newState.users, t.fromUserId, t.toUserId, t.amount);
    }
  }

  // ----- idempotent payment -----

  /**
   * Once a gig with no earlier payment has been paid, paying it again reuses
   * that payment: the same id, and the state is unchanged.
   */
  lemma PaymentIsIdempotent(s: State, gigId: string, txId: string, now: int, retryId: string, later: int)
    requires FirstPayment(s, gigId).None?
    requires txId !in s.transactions.rows
    requires ExecutePayment(s, gigId, txId, now).Ok?
    ensures var s1 := ExecutePayment(s, gigId, txId, now).newState;
      ExecutePayment(s1, gigId, retryId, later) == Ok(s1, txId)
  {
    var s1 := ExecutePayment(s, gigId, txId, now).newState;
    var g := s.gigs.rows[gigId];
    var settled := SettledPayment(g, gigId, txId, now);
    assert s1.transactions == Put(s.transactions, txId, settled);
    assert s1.gigs == s.gigs;
    assert Payable(s1, gigId);
    PutFreshValues(s.transactions, txId, settled);
    FindAppendNone(Values(s.transactions), settled, t => IsPaymentFor(t, gigId));
    assert FirstPayment(s1, gigId) == Some(settled);
  }

  /**
   * After a first payment that FAILED or was CANCELLED the payment is not
   * idempotent: `find` keeps returning that first payment, so each later call
   * skips both early returns and pays afresh.
   */
  lemma RepaysAfterFailedPayment(s: State, gigId: string, txId: string, now: int, retryId: string, later: int)
    requires FirstPayment(s, gigId).Some? && FirstPayment(s, gigId).value.status in {Failed, TxCancelled}
    requires txId !in s.transactions.rows
    ensures var r := ExecutePayment(s, gigId, txId, now);
      r.Ok? ==>
        && FirstPayment(r.newState, gigId) == FirstPayment(s, gigId)
        && ExecutePayment(r.newState, gigId, retryId, later) == PayAnew(r.newState, gigId, retryId, later)
    ensures var r := ExecutePayment(s, gigId, txId, now);
      r.Ok? ==>
        var s1 := r.newState;
        var g := s.gigs.rows[gigId];
        s1.users.rows[Payer(g)].timeCredits >= g.timeCreditsOffered ==>
          && ExecutePayment(s1, gigId, retryId, later).Ok?
          && Transferred(s1.users, ExecutePayment(s1, gigId, retryId, later).newState.users,
                         Payer(g), Payee(g), g.timeCreditsOffered)
  {
    if !ExecutePayment(s, gigId, txId, now).Ok? { return; }
    var s1 := ExecutePayment(s, gigId, txId, now).newState;
    var g := s.gigs.rows[gigId];
    var settled := SettledPayment(g, gigId, txId, now);
    assert s1.transactions == Put(s.transactions, txId, settled);
    PutFreshValues(s.transactions, txId, settled);
    FindAppend(Values(s.transactions), [settled], t => IsPaymentFor(t, gigId));
    assert FirstPayment(s1, gigId) == FirstPayment(s, gigId);
    assert s1.gigs == s.gigs;
    assert Payable(s1, gigId);
  }

  // ----- the confirmation table -----

  /** Confirming an ASSIGNED gig only moves it to AWAITING_CONFIRMATION: no payment, no balance change. */
  lemma ConfirmFromAssignedDefersPayment(s: State, gigId: string, userId: string, txId: string, now: int)
    requires gigId in s.gigs.rows && s.gigs.rows[gigId].status == Assigned
    requires userId in s.users.rows && IsParticipant(s.gigs.rows[gigId], userId)
    ensures var r := ConfirmGigCompletion(s, gigId, userId, txId, now);
      && r.Ok? && r.value.None?
      && r.newState.gigs.rows[gigId].status == AwaitingConfirmation
      && r.newState.gigs.rows[gigId].completedAt == s.gigs.rows[gigId].completedAt
      && r.newState.users == s.users
      && r.newState.transactions == s.transactions
  {
  }

  /**
   * A gig confirmed from ASSIGNED needs a second confirmation, by either
   * party, which completes it and settles exactly one new payment.
   */
  lemma SecondConfirmationPays(s: State, gigId: string, first: string, second: string,
                               unusedId: string, txId: string, now: int, later: int)
    requires Payable(s, gigId) && s.gigs.rows[gigId].status == Assigned
    requires first in s.users.rows && IsParticipant(s.gigs.rows[gigId], first)
    requires second in s.users.rows && IsParticipant(s.gigs.rows[gigId], second)
    requires FirstPayment(s, gigId).None?
    requires s.users.rows[Payer(s.gigs.rows[gigId])].timeCredits >= s.gigs.rows[gigId].timeCreditsOffered
    ensures var s1 := ConfirmGigCompletion(s, gigId, first, unusedId, now).newState;
      var r := ConfirmGigCompletion(s1, gigId, second, txId, later);
      var g := s.gigs.rows[gigId];
      && r.Ok? && r.value == Some(txId)
      && r.newState.gigs.rows[gigId] == g.(status := Completed, completedAt := Some(later))
      && r.newState.transactions == Put(s.transactions, txId, SettledPayment(g, gigId, txId, later))
      && Transferred(s.users, r.newState.users, Payer(g), Payee(g), g.timeCreditsOffered)
  {
    var g := s.gigs.rows[gigId];
    var s1 := ConfirmGigCompletion(s, gigId, first, unusedId, now).newState;
    assert s1 == WithGig(s, gigId, g.(status := AwaitingConfirmation));
    var g2 := g.(status := Completed, completedAt := Some(later));
    var s2 := WithGig(s1, gigId, g2);
    assert Payable(s2, gigId);
    assert FirstPayment(s2, gigId) == FirstPayment(s, gigId);
    assert SettledPayment(g2, gigId, txId, later) == SettledPayment(g, gigId, txId, later);
  }

  /** A gig confirmed from IN_PROGRESS completes and pays on the first confirmation. */
  lemma ConfirmFromInProgressPays(s: State, gigId: string, userId: string, txId: string, now: int)
    requires Payable(s, gigId) && s.gigs.rows[gigId].status == InProgress
    requires userId in s.users.rows && IsParticipant(s.gigs.rows[gigId], userId)
    requires FirstPayment(s, gigId).None?
    requires s.users.rows[Payer(s.gigs.rows[gigId])].timeCredits >= s.gigs.rows[gigId].timeCreditsOffered
    ensures var r := ConfirmGigCompletion(s, gigId, userId, txId, now);
      var g := s.gigs.rows[gigId];
      && r.Ok? && r.value == Some(txId)
      && r.newState.gigs.rows[gigId] == g.(status := Completed, completedAt := Some(now))
      && r.newState.transactions == Put(s.transactions, txId, SettledPayment(g, gigId, txId, now))
      && Transferred(s.users, r.newState.users, Payer(g), Payee(g), g.timeCreditsOffered)
  {
    var g := s.gigs.rows[gigId];
    var g2 := g.(status := Completed, completedAt := Some(now));
    var s2 := WithGig(s, gigId, g2);
    assert Payable(s2, gigId);
    assert FirstPayment(s2, gigId) == FirstPayment(s, gigId);
    assert SettledPayment(g2, gigId, txId, now) == SettledPayment(g, gigId, txId, now);
  }

  /**
   * When the payer cannot cover the gig, confirming from IN_PROGRESS or
   * AWAITING_CONFIRMATION fails with no new state, so the gig stays
   * uncompleted.
   */
  lemma ShortPayerBlocksCompletion(s: State, gigId: string, userId: string, txId: string, now: int)
    requires Payable(s, gigId) && s.gigs.rows[gigId].status in {InProgress, AwaitingConfirmation}
    requires userId in s.users.rows && IsParticipant(s.gigs.rows[gigId], userId)
    requires NeedsNewPayment(s, gigId)
    requires s.users.rows[Payer(s.gigs.rows[gigId])].timeCredits < s.gigs.rows[gigId].timeCreditsOffered
    ensures ConfirmGigCompletion(s, gigId, userId, txId, now)
            == Fail(InsufficientCredits(s.users.rows[Payer(s.gigs.rows[gigId])].timeCredits,
                                        s.gigs.rows[gigId].timeCreditsOffered))
  {
    var g := s.gigs.rows[gigId];
    var s2 := WithGig(s, gigId, g.(status := Completed, completedAt := Some(now)));
    assert Payable(s2, gigId);
    assert FirstPayment(s2, gigId) == FirstPayment(s, gigId);
  }

  // ----- the ledger invariant -----

  /** The lifecycle shape of one gig: an assignee exactly from ASSIGNED on, never the creator; a completion time exactly when COMPLETED. */
  ghost predicate GigWellFormed(g: Gig) {
    && (g.assignedTo.Some? <==> g.status in {Assigned, InProgress, AwaitingConfirmation, Completed})
    && (g.assignedTo.Some? ==> g.assignedTo.value != g.createdBy)
    && (g.completedAt.Some? <==> g.status == Completed)
  }

  predicate IsCompletedPayment(t: Transaction) {
    t.txType == GigPayment && t.status == TxCompleted
  }

  /**
   * Every gig and transaction is stored under its own id and every gig is
   * well formed; a completed GIG_PAYMENT exists only for a COMPLETED gig, and
   * at most one exists per gig.
   */
  ghost predicate LedgerInvariant(s: State) {
    && (forall k :: k in s.gigs.rows ==> s.gigs.rows[k].id == k && GigWellFormed(s.gigs.rows[k]))
    && (forall k :: k in s.transactions.rows ==> s.transactions.rows[k].id == k)
    && (forall k :: k in s.transactions.rows && IsCompletedPayment(s.transactions.rows[k]) ==>
          && s.transactions.rows[k].gigId in s.gigs.rows
          && s.gigs.rows[s.transactions.rows[k].gigId].status == Completed)
    && (forall k1, k2 ::
          && k1 in s.transactions.rows && k2 in s.transactions.rows
          && IsCompletedPayment(s.transactions.rows[k1]) && IsCompletedPayment(s.transactions.rows[k2])
          && s.transactions.rows[k1].gigId == s.transactions.rows[k2].gigId
          ==> k1 == k2)
  }

  /** Replacing a gig that is not COMPLETED by a well-formed one that is not COMPLETED keeps the invariant. */
  lemma GigStepPreserves(s: State, gigId: string, g': Gig, s': State)
    requires LedgerInvariant(s)
    requires gigId in s.gigs.rows ==> s.gigs.rows[gigId].status != Completed
    requires g'.id == gigId && GigWellFormed(g') && g'.status != Completed
    requires s'.gigs == Put(s.gigs, gigId, g') && s'.transactions == s.transactions
    ensures LedgerInvariant(s')
  {
  }

  /** Completing a gig together with settling its one payment under key `k` keeps the invariant. */
  lemma CompletionPreserves(s: State, gigId: string, g': Gig, k: string, t': Transaction, s': State)
    requires LedgerInvariant(s)
    requires gigId in s.gigs.rows && s.gigs.rows[gigId].status != Completed
    requires g'.id == gigId && GigWellFormed(g') && g'.status == Completed
    requires t'.id == k && IsCompletedPayment(t') && t'.gigId == gigId
    requires s'.gigs == Put(s.gigs, gigId, g') && s'.transactions == Put(s.transactions, k, t')
    ensures LedgerInvariant(s')
  {
    var gigs, txs := s'.gigs.rows, s'.transactions.rows;
    forall j | j in gigs
      ensures gigs[j].id == j && GigWellFormed(gigs[j])
    {
      if j != gigId { assert gigs[j] == s.gigs.rows[j]; }
    }
    forall j | j in txs
      ensures txs[j].id == j
    {
      if j != k { assert txs[j] == s.transactions.rows[j]; }
    }
    forall j | j in txs && IsCompletedPayment(txs[j])
      ensures txs[j].gigId in gigs && gigs[txs[j].gigId].status == Completed
    {
      if j != k {
        var g := s.transactions.rows[j].gigId;
        assert txs[j] == s.transactions.rows[j];
        assert g in s.gigs.rows && s.gigs.rows[g].status == Completed;
        assert g != gigId;
        assert gigs[g] == s.gigs.rows[g];
      }
    }
    forall k1, k2 | k1 in txs && k2 in txs && IsCompletedPayment(txs[k1]) && IsCompletedPayment(txs[k2])
                    && txs[k1].gigId == txs[k2].gigId
      ensures k1 == k2
    {
      if k1 != k && k2 != k {
        assert txs[k1] == s.transactions.rows[k1];
        assert txs[k2] == s.transactions.rows[k2];
      }
    }
  }

  /** Posting a gig without assignee or completion time under a fresh id keeps the invariant. */
  lemma CreatePreserves(s: State, d: GigDraft, gigId: string, now: int)
    requires LedgerInvariant(s)
    requires gigId !in s.gigs.rows
    requires d.assignedTo.None? && d.completedAt.None?
    ensures CreateGig(s, d, gigId, now).Ok? ==> LedgerInvariant(CreateGig(s, d, gigId, now).newState)
  {
    var r := CreateGig(s, d, gigId, now);
    if r.Ok? {
      assert r.newState.gigs == Put(s.gigs, gigId, NewGig(d, gigId, now));
      GigStepPreserves(s, gigId, NewGig(d, gigId, now), r.newState);
    }
  }

  lemma AcceptPreserves(s: State, gigId: string, userId: string)
    requires LedgerInvariant(s)
    ensures AcceptGig(s, gigId, userId).Ok? ==> LedgerInvariant(AcceptGig(s, gigId, userId).newState)
  {
    var r := AcceptGig(s, gigId, userId);
    if r.Ok? {
      var g' := s.gigs.rows[gigId].(status := Assigned, assignedTo := Some(userId));
      assert r.newState.gigs == Put(s.gigs, gigId, g');
      GigStepPreserves(s, gigId, g', r.newState);
    }
  }

  lemma StartPreserves(s: State, gigId: string, userId: string)
    requires LedgerInvariant(s)
    ensures StartGig(s, gigId, userId).Ok? ==> LedgerInvariant(StartGig(s, gigId, userId).newState)
  {
    var r := StartGig(s, gigId, userId);
    if r.Ok? {
      var g' := s.gigs.rows[gigId].(status := InProgress);
      assert r.newState.gigs == Put(s.gigs, gigId, g');
      GigStepPreserves(s, gigId, g', r.newState);
    }
  }

  /**
   * Confirming keeps the invariant, given a fresh payment id: a completion
   * settles exactly one payment for the gig, and no gig is ever paid twice.
   */
  lemma ConfirmPreserves(s: State, gigId: string, userId: string, txId: string, now: int)
    requires LedgerInvariant(s)
    requires txId !in s.transactions.rows
    ensures ConfirmGigCompletion(s, gigId, userId, txId, now).Ok? ==>
            LedgerInvariant(ConfirmGigCompletion(s, gigId, userId, txId, now).newState)
  {
    var r := ConfirmGigCompletion(s, gigId, userId, txId, now);
    if r.Ok? {
      var g := s.gigs.rows[gigId];
      if g.status == Assigned {
        var g' := g.(status := AwaitingConfirmation);
        GigStepPreserves(s, gigId, g', r.newState);
      } else if g.status != Completed {
        var g' := g.(status := Completed, completedAt := Some(now));
        var paid := ExecutePayment(WithGig(s, gigId, g'), gigId, txId, now);
        assert paid.Ok? && r.newState == paid.newState;
        CompletingPaymentPreserves(s, gigId, txId, now);
      }
    }
  }

  /** Completing a not yet completed gig and paying for it with a fresh id keeps the invariant. */
  lemma CompletingPaymentPreserves(s: State, gigId: string, txId: string, now: int)
    requires LedgerInvariant(s)
    requires txId !in s.transactions.rows
    requires gigId in s.gigs.rows && s.gigs.rows[gigId].status != Completed
    ensures var g' := s.gigs.rows[gigId].(status := Completed, completedAt := Some(now));
      var paid := ExecutePayment(WithGig(s, gigId, g'), gigId, txId, now);
      paid.Ok? ==> LedgerInvariant(paid.newState)
  {
    var g' := s.gigs.rows[gigId].(status := Completed, completedAt := Some(now));
    var s1 := WithGig(s, gigId, g');
    var paid := ExecutePayment(s1, gigId, txId, now);
    if paid.Ok? {
      assert Payable(s1, gigId);
      assert FirstPayment(s1, gigId) == FirstPayment(s, gigId);
      var first := FirstPayment(s, gigId);
      if first.Some? {
        var k :| k in s.transactions.rows && s.transactions.rows[k] == first.value;
        assert first.value.status != TxCompleted;
        if first.value.status == Pending {
          assert first.value.id == k;
          var t' := first.value.(status := TxCompleted, completedAt := Some(now));
          assert paid.newState.transactions == Put(s1.transactions, k, t');
          CompletionPreserves(s, gigId, g', k, t', paid.newState);
          return;
        }
      }
      assert NeedsNewPayment(s1, gigId);
      var t' := SettledPayment(g', gigId, txId, now);
      assert paid.newState.transactions == Put(s.transactions, txId, t');
      CompletionPreserves(s, gigId, g', txId, t', paid.newState);
    }
  }
}
