/**
 * The gig lifecycle engine and the ledger it drives: posting, accepting,
 * starting and confirming gigs, and the idempotent payment that moves the
 * gig's credits between its two parties.
 */
module GigService {
  import opened Wrappers
  import opened Seqs
  import opened Tables
  import opened Types
  import opened Text
  import opened Timebank

  const MinTitleLength: nat := 10
  const MinDescriptionLength: nat := 20

  /** The caller-supplied part of a gig (`Omit<Gig, 'id' | 'createdAt' | 'status'>`). */
  datatype GigDraft = GigDraft(
    title: string,
    description: string,
    category: GigCategory,
    gigType: GigType,
    timeCreditsOffered: int,
    estimatedDuration: int,
    requiredSkills: seq<string>,
    isRemote: bool,
    createdBy: string,
    assignedTo: Option<string>,
    completedAt: Option<int>)

  /** The posted gig: the draft's fields, the fresh id, the creation time, status OPEN. */
  function NewGig(d: GigDraft, id: string, now: int): (g: Gig)
    ensures g.id == id && g.createdAt == now && g.status == Open
    ensures g.title == d.title && g.description == d.description && g.category == d.category
    ensures g.gigType == d.gigType && g.timeCreditsOffered == d.timeCreditsOffered
    ensures g.createdBy == d.createdBy && g.assignedTo == d.assignedTo && g.completedAt == d.completedAt
    ensures g.estimatedDuration == d.estimatedDuration && g.requiredSkills == d.requiredSkills
    ensures g.isRemote == d.isRemote
  {
    Gig(id, d.title, d.description, d.category, d.gigType, d.timeCreditsOffered,
        d.estimatedDuration, d.requiredSkills, d.isRemote, d.createdBy, now, Open,
        d.assignedTo, d.completedAt)
  }

  /** `s` with the gig stored under `id` replaced by `g` and nothing else touched. */
  function WithGig(s: State, id: string, g: Gig): State {
    s.(gigs := Put(s.gigs, id, g))
  }

  /** `createGig`: validates the draft and posts it under the fresh id `gigId`. */
  function CreateGig(s: State, d: GigDraft, gigId: string, now: int): (r: Reply<string>)
    ensures !r.FailRecorded?
    ensures r.Ok? <==>
      && d.createdBy in s.users.rows
      && TrimmedLength(d.title) >= MinTitleLength
      && TrimmedLength(d.description) >= MinDescriptionLength
      && (d.gigType == FindHelp ==> s.users.rows[d.createdBy].timeCredits >= d.timeCreditsOffered)
    ensures d.createdBy !in s.users.rows ==> r == Fail(UserNotFound)
    ensures d.createdBy in s.users.rows && TrimmedLength(d.title) < MinTitleLength ==> r == Fail(TitleTooShort)
    ensures (d.createdBy in s.users.rows && TrimmedLength(d.title) >= MinTitleLength
             && TrimmedLength(d.description) < MinDescriptionLength) ==> r == Fail(DescriptionTooShort)
    ensures (d.createdBy in s.users.rows && d.gigType == FindHelp
             && s.users.rows[d.createdBy].timeCredits < d.timeCreditsOffered
             && TrimmedLength(d.title) >= MinTitleLength && TrimmedLength(d.description) >= MinDescriptionLength)
            ==> r.Fail? && r.error == InsufficientCredits(s.users.rows[d.createdBy].timeCredits, d.timeCreditsOffered)
    ensures r.Ok? ==> r.value == gigId
    ensures r.Ok? ==> Get(r.newState.gigs, gigId) == Some(NewGig(d, gigId, now))
    ensures r.Ok? ==> forall k :: k != gigId ==> Get(r.newState.gigs, k) == Get(s.gigs, k)
    ensures r.Ok? ==> r.newState.(gigs := s.gigs) == s
    ensures r.Ok? && gigId !in s.gigs.rows ==> |r.newState.gigs.rows| == |s.gigs.rows| + 1
  {
    if d.createdBy !in s.users.rows then Fail(UserNotFound)
    else if TrimmedLength(d.title) < MinTitleLength then Fail(TitleTooShort)
    else if TrimmedLength(d.description) < MinDescriptionLength then Fail(DescriptionTooShort)
    else
      var creator := s.users.rows[d.createdBy];
      if d.gigType == FindHelp && creator.timeCredits < d.timeCreditsOffered then
        Fail(InsufficientCredits(creator.timeCredits, d.timeCreditsOffered))
      else
        Ok(WithGig(s, gigId, NewGig(d, gigId, now)), gigId)
  }

  /** `acceptGig`: the first taker of an OPEN gig becomes its assignee. */
  function AcceptGig(s: State, gigId: string, userId: string): (r: Reply<()>)
    ensures !r.FailRecorded?
    ensures r.Ok? <==>
      && gigId in s.gigs.rows
      && userId in s.users.rows
      && s.gigs.rows[gigId].createdBy != userId
      && s.gigs.rows[gigId].status == Open
    ensures gigId !in s.gigs.rows ==> r == Fail(GigNotFound)
    ensures gigId in s.gigs.rows && userId !in s.users.rows ==> r == Fail(UserNotFound)
    ensures gigId in s.gigs.rows && userId in s.users.rows && s.gigs.rows[gigId].createdBy == userId
            ==> r == Fail(CannotAcceptOwnGig)
    ensures (gigId in s.gigs.rows && userId in s.users.rows && s.gigs.rows[gigId].createdBy != userId
             && s.gigs.rows[gigId].status != Open) ==> r == Fail(GigNoLongerAvailable)
    ensures r.Ok? ==> Get(r.newState.gigs, gigId)
                      == Some(s.gigs.rows[gigId].(status := Assigned, assignedTo := Some(userId)))
    ensures r.Ok? ==> forall k :: k != gigId ==> Get(r.newState.gigs, k) == Get(s.gigs, k)
    ensures r.Ok? ==> r.newState.(gigs := s.gigs) == s && r.newState.gigs.order == s.gigs.order
  {
    if gigId !in s.gigs.rows then Fail(GigNotFound)
    else if userId !in s.users.rows then Fail(UserNotFound)
    else
      var gig := s.gigs.rows[gigId];
      if gig.createdBy == userId then Fail(CannotAcceptOwnGig)
      else if gig.status != Open then Fail(GigNoLongerAvailable)
      else Ok(WithGig(s, gigId, gig.(status := Assigned, assignedTo := Some(userId))), ())
  }

  /**
   * `startGig`: the assignee moves an ASSIGNED gig to IN_PROGRESS. The
   * assignee check runs before the status check.
   */
  function StartGig(s: State, gigId: string, userId: string): (r: Reply<()>)
    ensures !r.FailRecorded?
    ensures r.Ok? <==>
      && gigId in s.gigs.rows
      && s.gigs.rows[gigId].assignedTo == Some(userId)
      && s.gigs.rows[gigId].status == Assigned
    ensures gigId !in s.gigs.rows ==> r == Fail(GigNotFound)
    ensures gigId in s.gigs.rows && s.gigs.rows[gigId].assignedTo != Some(userId)
            ==> r == Fail(OnlyAssigneeCanStart)
    ensures (gigId in s.gigs.rows && s.gigs.rows[gigId].assignedTo == Some(userId)
             && s.gigs.rows[gigId].status != Assigned) ==> r == Fail(GigMustBeAssigned)
    ensures r.Ok? ==> Get(r.newState.gigs, gigId) == Some(s.gigs.rows[gigId].(status := InProgress))
    ensures r.Ok? ==> forall k :: k != gigId ==> Get(r.newState.gigs, k) == Get(s.gigs, k)
    ensures r.Ok? ==> r.newState.(gigs := s.gigs) == s && r.newState.gigs.order == s.gigs.order
  {
    if gigId !in s.gigs.rows then Fail(GigNotFound)
    else
      var gig := s.gigs.rows[gigId];
      if gig.assignedTo != Some(userId) then Fail(OnlyAssigneeCanStart)
      else if gig.status != Assigned then Fail(GigMustBeAssigned)
      else Ok(WithGig(s, gigId, gig.(status := InProgress)), ())
  }

  // ----- ledger -----

  /** The payment effect on the users table: `amount` leaves `from` and reaches `to`. */
  ghost predicate Transferred(u: Table<User>, u': Table<User>, from: string, to: string, amount: int) {
    && from in u.rows && to in u.rows
    && u'.order == u.order
    && u'.rows.Keys == u.rows.Keys
    && (forall k :: k in u.rows && k != from && k != to ==> u'.rows[k] == u.rows[k])
    && (from != to ==>
          && u'.rows[from] == u.rows[from].(timeCredits := u.rows[from].timeCredits - amount)
          && u'.rows[to] == u.rows[to].(timeCredits := u.rows[to].timeCredits + amount))
    // The payee record is written last, from the balance read before the debit.
    && (from == to ==> u'.rows[to] == u.rows[to].(timeCredits := u.rows[to].timeCredits + amount))
  }

  /** The transaction marked FAILED, nothing else changed. */
  function RecordFailure(s: State, txId: string, t: Transaction): State {
    s.(transactions := Put(s.transactions, txId, t.(status := Failed)))
  }

  /**
   * `processTransaction`: settles a PENDING transaction. A completed one is
   * left alone; a missing party or a short balance marks it FAILED.
   */
  function ProcessTransaction(s: State, txId: string, now: int): (r: Reply<string>)
    ensures txId !in s.transactions.rows ==> r == Fail(TransactionNotFound)
    ensures txId in s.transactions.rows ==>
      var t := s.transactions.rows[txId];
      && (t.status == TxCompleted ==> r == Ok(s, txId))
      && (t.status != TxCompleted && t.status != Pending ==> r == Fail(TransactionNotPending))
      && ((t.status == Pending && (t.fromUserId !in s.users.rows || t.toUserId !in s.users.rows))
            ==> r == FailRecorded(UsersNotFound, RecordFailure(s, txId, t)))
      && ((t.status == Pending && t.fromUserId in s.users.rows && t.toUserId in s.users.rows
             && s.users.rows[t.fromUserId].timeCredits < t.amount)
            ==> r == FailRecorded(InsufficientBalance, RecordFailure(s, txId, t)))
    ensures r.Ok? ==> r.value == txId
    ensures r.Ok? && s.transactions.rows[txId].status == Pending ==>
      var t := s.transactions.rows[txId];
      && t.fromUserId in s.users.rows && t.toUserId in s.users.rows
      && s.users.rows[t.fromUserId].timeCredits >= t.amount
      && Transferred(s.users, r.newState.users, t.fromUserId, t.toUserId, t.amount)
      && r.newState.transactions
         == Put(s.transactions, txId, t.(status := TxCompleted, completedAt := Some(now)))
      && r.newState.(users := s.users, transactions := s.transactions) == s
  {
    if txId !in s.transactions.rows then Fail(TransactionNotFound)
    else
      var t := s.transactions.rows[txId];
      if t.status == TxCompleted then Ok(s, txId)
      else if t.status != Pending then Fail(TransactionNotPending)
      else if t.fromUserId !in s.users.rows || t.toUserId !in s.users.rows then
        FailRecorded(UsersNotFound, RecordFailure(s, txId, t))
      else
        var fromUser := s.users.rows[t.fromUserId];
        var toUser := s.users.rows[t.toUserId];
        if fromUser.timeCredits < t.amount then
          FailRecorded(InsufficientBalance, RecordFailure(s, txId, t))
        else
          var users := Put(Put(s.users, t.fromUserId, fromUser.(timeCredits := fromUser.timeCredits - t.amount)),
                           t.toUserId, toUser.(timeCredits := toUser.timeCredits + t.amount));
          var done := t.(status := TxCompleted, completedAt := Some(now));
          Ok(s.(users := users, transactions := Put(s.transactions, txId, done)), txId)
  }

  /** `!gig.assignedTo`: no assignee, or the empty string. */
  predicate Unassigned(g: Gig) {
    g.assignedTo.None? || g.assignedTo.value == ""
  }

  /** Who pays: the creator of a FIND_HELP gig, the assignee of an OFFER_HELP gig. */
  function Payer(g: Gig): (p: string)
    requires g.assignedTo.Some?
    ensures g.gigType == FindHelp ==> p == g.createdBy
    ensures g.gigType == OfferHelp ==> p == g.assignedTo.value
  {
    if g.gigType == FindHelp then g.createdBy else g.assignedTo.value
  }

  /** Who is paid: the other party. */
  function Payee(g: Gig): (p: string)
    requires g.assignedTo.Some?
    ensures g.gigType == FindHelp ==> p == g.assignedTo.value
    ensures g.gigType == OfferHelp ==> p == g.createdBy
    ensures {p, Payer(g)} == {g.createdBy, g.assignedTo.value}
  {
    if g.gigType == FindHelp then g.assignedTo.value else g.createdBy
  }

  /** A GIG_PAYMENT transaction for `gigId`. */
  predicate IsPaymentFor(t: Transaction, gigId: string) {
    t.gigId == gigId && t.txType == GigPayment
  }

  /** The first GIG_PAYMENT for the gig in `Object.values` order. */
  function FirstPayment(s: State, gigId: string): (r: Option<Transaction>)
    ensures r.Some? ==> IsPaymentFor(r.value, gigId)
    ensures r.Some? ==> exists k :: k in s.transactions.rows && s.transactions.rows[k] == r.value
    ensures r.None? ==> forall k :: k in s.transactions.rows ==> !IsPaymentFor(s.transactions.rows[k], gigId)
  {
    var r := Find(Values(s.transactions), t => IsPaymentFor(t, gigId));
    FoundInTable(s.transactions, r, t => IsPaymentFor(t, gigId));
    r
  }

  /** What `Find` over `Object.values` says about the table itself. */
  lemma FoundInTable<T(!new)>(t: Table<T>, r: Option<T>, p: T -> bool)
    requires r.None? <==> forall j :: 0 <= j < |Values(t)| ==> !p(Values(t)[j])
    requires r.Some? ==> exists i :: 0 <= i < |Values(t)| && Values(t)[i] == r.value && p(Values(t)[i])
    ensures r.Some? ==> p(r.value) && exists k :: k in t.rows && t.rows[k] == r.value
    ensures r.None? ==> forall k :: k in t.rows ==> !p(t.rows[k])
  {
    if r.Some? {
      ValuesAreRows(t, r.value);
    } else {
      forall k | k in t.rows ensures !p(t.rows[k]) {
        ValuesAreRows(t, t.rows[k]);
      }
    }
  }

  /** The PENDING payment `executePayment` creates for a gig. */
  function PaymentRecord(g: Gig, gigId: string, txId: string, now: int): (t: Transaction)
    requires g.assignedTo.Some?
    ensures IsPaymentFor(t, gigId) && t.status == Pending && t.id == txId
    ensures t.fromUserId == Payer(g) && t.toUserId == Payee(g) && t.amount == g.timeCreditsOffered
  {
    Transaction(txId, Payer(g), Payee(g), gigId, g.timeCreditsOffered, GigPayment, Pending, now, None,
                "Payment for gig: " + g.title)
  }

  /** The gig has an assignee and both of its parties are registered. */
  predicate Payable(s: State, gigId: string) {
    && gigId in s.gigs.rows
    && !Unassigned(s.gigs.rows[gigId])
    && s.gigs.rows[gigId].createdBy in s.users.rows
    && s.gigs.rows[gigId].assignedTo.value in s.users.rows
  }

  /** No earlier payment for the gig can be reused: none exists, or the first one FAILED or was CANCELLED. */
  predicate NeedsNewPayment(s: State, gigId: string) {
    FirstPayment(s, gigId).None? || FirstPayment(s, gigId).value.status in {Failed, TxCancelled}
  }

  /** The settled form of the payment created under `txId`. */
  function SettledPayment(g: Gig, gigId: string, txId: string, now: int): (t: Transaction)
    requires g.assignedTo.Some?
    ensures IsPaymentFor(t, gigId) && t.status == TxCompleted && t.id == txId
    ensures t.fromUserId == Payer(g) && t.toUserId == Payee(g) && t.amount == g.timeCreditsOffered
  {
    PaymentRecord(g, gigId, txId, now).(status := TxCompleted, completedAt := Some(now))
  }

  /** The tail of `executePayment` that creates a new PENDING payment and settles it. */
  function PayAnew(s: State, gigId: string, txId: string, now: int): (r: Reply<string>)
    requires Payable(s, gigId)
    ensures
      var g := s.gigs.rows[gigId];
      && (s.users.rows[Payer(g)].timeCredits < g.timeCreditsOffered ==>
            r == Fail(InsufficientCredits(s.users.rows[Payer(g)].timeCredits, g.timeCreditsOffered)))
      && (s.users.rows[Payer(g)].timeCredits >= g.timeCreditsOffered ==>
            && r.Ok? && r.value == txId
            && Transferred(s.users, r.newState.users, Payer(g), Payee(g), g.timeCreditsOffered)
            && r.newState.transactions == Put(s.transactions, txId, SettledPayment(g, gigId, txId, now))
            && r.newState.(users := s.users, transactions := s.transactions) == s)
  {
    var g := s.gigs.rows[gigId];
    var payer := s.users.rows[Payer(g)];
    if payer.timeCredits < g.timeCreditsOffered then
      Fail(InsufficientCredits(payer.timeCredits, g.timeCreditsOffered))
    else
      var rec := PaymentRecord(g, gigId, txId, now);
      PutPut(s.transactions, txId, rec, SettledPayment(g, gigId, txId, now));
      ProcessTransaction(AddTransaction(s, rec), txId, now)
  }

  /**
   * `executePayment`: pays for a gig exactly once. A completed payment found
   * first is reused; a pending one is resumed; otherwise the payer's balance
   * is checked and a new payment under `txId` is created and settled.
   */
  function ExecutePayment(s: State, gigId: string, txId: string, now: int): (r: Reply<string>)
    ensures (gigId !in s.gigs.rows || Unassigned(s.gigs.rows[gigId])) ==> r == Fail(InvalidGigForPayment)
    ensures (gigId in s.gigs.rows && !Unassigned(s.gigs.rows[gigId]) && !Payable(s, gigId))
            ==> r == Fail(UsersNotFoundForPayment)
    ensures r.Ok? ==> Payable(s, gigId)
    ensures (Payable(s, gigId) && FirstPayment(s, gigId).Some? && FirstPayment(s, gigId).value.status == TxCompleted)
            ==> r == Ok(s, FirstPayment(s, gigId).value.id)
    ensures (Payable(s, gigId) && FirstPayment(s, gigId).Some? && FirstPayment(s, gigId).value.status == Pending)
            ==> r == ProcessTransaction(s, FirstPayment(s, gigId).value.id, now)
    ensures (Payable(s, gigId) && NeedsNewPayment(s, gigId)) ==> r == PayAnew(s, gigId, txId, now)
    ensures r.Ok? ==> r.newState.(users := s.users, transactions := s.transactions) == s
  {
    if gigId !in s.gigs.rows || Unassigned(s.gigs.rows[gigId]) then Fail(InvalidGigForPayment)
    else
      var g := s.gigs.rows[gigId];
      if g.createdBy !in s.users.rows || g.assignedTo.value !in s.users.rows then Fail(UsersNotFoundForPayment)
      else
        var existing := FirstPayment(s, gigId);
        if existing.Some? && existing.value.status == TxCompleted then Ok(s, existing.value.id)
        else if existing.Some? && existing.value.status == Pending then
          ProcessTransaction(s, existing.value.id, now)
        else
          PayAnew(s, gigId, txId, now)
  }

  /** May `userId` confirm `g`: its creator or its assignee. */
  predicate IsParticipant(g: Gig, userId: string) {
    g.createdBy == userId || g.assignedTo == Some(userId)
  }

  /**
   * `confirmGigCompletion`. From ASSIGNED a confirmation only moves the gig
   * to AWAITING_CONFIRMATION; from IN_PROGRESS or AWAITING_CONFIRMATION it
   * completes the gig and pays (a failed payment fails the whole call); a
   * COMPLETED gig is confirmed again without effect.
   */
  function ConfirmGigCompletion(s: State, gigId: string, userId: string, txId: string, now: int)
    : (r: Reply<Option<string>>)
    ensures !r.FailRecorded?
    ensures gigId !in s.gigs.rows ==> r == Fail(GigNotFound)
    ensures gigId in s.gigs.rows && userId !in s.users.rows ==> r == Fail(UserNotFound)
    ensures gigId in s.gigs.rows && userId in s.users.rows && !IsParticipant(s.gigs.rows[gigId], userId)
            ==> r == Fail(NotGigParticipant)
    ensures r.Ok? ==> gigId in s.gigs.rows && userId in s.users.rows && IsParticipant(s.gigs.rows[gigId], userId)
    ensures gigId in s.gigs.rows && userId in s.users.rows && IsParticipant(s.gigs.rows[gigId], userId) ==>
      var g := s.gigs.rows[gigId];
      && (g.status == Completed ==> r == Ok(s, None))
      && (g.status in {Open, Cancelled} ==> r == Fail(InvalidStatusForConfirmation))
      && (g.status == Assigned ==> r == Ok(WithGig(s, gigId, g.(status := AwaitingConfirmation)), None))
      && (g.status in {InProgress, AwaitingConfirmation} ==>
            var paid := ExecutePayment(WithGig(s, gigId, g.(status := Completed, completedAt := Some(now))),
                                       gigId, txId, now);
            && (paid.Ok? ==> r == Ok(paid.newState, Some(paid.value)))
            && (!paid.Ok? ==> r == Fail(paid.error)))
  {
    if gigId !in s.gigs.rows then Fail(GigNotFound)
    else if userId !in s.users.rows then Fail(UserNotFound)
    else
      var g := s.gigs.rows[gigId];
      if !IsParticipant(g, userId) then Fail(NotGigParticipant)
      else if g.status == Completed then Ok(s, None)
      else if g.status !in {Assigned, InProgress, AwaitingConfirmation} then Fail(InvalidStatusForConfirmation)
      else if g.status == Assigned then Ok(WithGig(s, gigId, g.(status := AwaitingConfirmation)), None)
      else
        var s1 := WithGig(s, gigId, g.(status := Completed, completedAt := Some(now)));
        match ExecutePayment(s1, gigId, txId, now)
        case Ok(s2, id) => Ok(s2, Some(id))
        case Fail(e) => Fail(e)
        case FailRecorded(e, _) => Fail(e)
  }
}
