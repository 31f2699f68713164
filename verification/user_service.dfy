/**
 * Registration of the signed-in platform user with the one-credit signup
 * bonus minted from the system account, and the per-user ledger view.
 */
module UserService {
  import opened Wrappers
  import opened Seqs
  import opened Tables
  import opened Types
  import opened Timebank

  /** Credits granted to every newly registered user. */
  const SignupBonusAmount: int := 1
  /** `Number.MAX_SAFE_INTEGER`, the balance the system account is created with. */
  const MaxSafeInteger: int := 9_007_199_254_740_991

  /** The platform's answer to "who is signed in"; `None` when nobody is. */
  datatype Identity = Identity(id: string, username: string)

  /** The system account used when none exists yet. */
  function DefaultSystemUser(now: int): User {
    User(SystemUserId, "System", MaxSafeInteger, 0, [], now, true)
  }

  /** A new member: an empty platform name becomes "Anonymous". */
  function NewMember(who: Identity, now: int): (u: User)
    ensures u.id == who.id && u.timeCredits == SignupBonusAmount && u.reputation == 0
    ensures u.skills == [] && u.isActive && u.joinedAt == now
    ensures u.username == if who.username == "" then "Anonymous" else who.username
  {
    User(who.id, if who.username == "" then "Anonymous" else who.username, SignupBonusAmount, 0, [], now, true)
  }

  /** The completed SIGNUP_BONUS minted from the system account. */
  function SignupRecord(userId: string, txId: string, now: int): (t: Transaction)
    ensures t.id == txId && t.fromUserId == SystemUserId && t.toUserId == userId && t.amount == SignupBonusAmount
    ensures t.txType == SignupBonus && t.status == TxCompleted && t.gigId == ""
  {
    Transaction(txId, SystemUserId, userId, "", SignupBonusAmount, SignupBonus, TxCompleted, now, Some(now),
                "Welcome bonus for joining TimeBank!")
  }

  /**
   * `registerUser`: a known user is returned as is; a new user is added
   * with the signup bonus, the system account is created if missing, the
   * bonus is recorded and the new user becomes the current user.
   */
  function RegisterUser(s: State, identity: Option<Identity>, txId: string, now: int): (r: Reply<User>)
    ensures !r.FailRecorded?
    ensures identity.None? ==> r == Fail(NoCurrentUser)
    ensures identity.Some? ==> r.Ok?
    ensures identity.Some? && identity.value.id in s.users.rows ==> r == Ok(s, s.users.rows[identity.value.id])
    ensures identity.Some? && identity.value.id !in s.users.rows ==>
      var who := identity.value;
      var sys := Get(s.users, SystemUserId).GetOr(DefaultSystemUser(now));
      && r.value == NewMember(who, now)
      && r.newState.users.rows == s.users.rows[SystemUserId := sys][who.id := NewMember(who, now)]
      && Get(r.newState.transactions, txId) == Some(SignupRecord(who.id, txId, now))
      && (forall k :: k != txId ==> Get(r.newState.transactions, k) == Get(s.transactions, k))
      && r.newState.currentUser == Some(who.id)
      && r.newState.(users := s.users, transactions := s.transactions, currentUser := s.currentUser) == s
  {
    match identity
    case None => Fail(NoCurrentUser)
    case Some(who) =>
      if who.id in s.users.rows then Ok(s, s.users.rows[who.id])
      else
        var member := NewMember(who, now);
        var sys := if SystemUserId in s.users.rows then s.users.rows[SystemUserId] else DefaultSystemUser(now);
        Ok(s.(users := Put(Put(s.users, SystemUserId, sys), who.id, member),
              transactions := Put(s.transactions, txId, SignupRecord(who.id, txId, now)),
              currentUser := Some(who.id)), member)
  }

  /**
   * `ensureUserRegistered`: a known user just becomes the current user;
   * anyone else is registered. The value is the user's id.
   */
  function EnsureUserRegistered(s: State, identity: Option<Identity>, txId: string, now: int): (r: Reply<string>)
    ensures !r.FailRecorded?
    ensures identity.None? <==> r == Fail(NoCurrentUser)
    ensures identity.Some? ==> r.Ok? && r.value == identity.value.id
    ensures identity.Some? && identity.value.id in s.users.rows ==>
      r.newState == s.(currentUser := Some(identity.value.id))
    ensures identity.Some? && identity.value.id !in s.users.rows ==>
      r.newState == RegisterUser(s, identity, txId, now).newState
  {
    match identity
    case None => Fail(NoCurrentUser)
    case Some(who) =>
      if who.id in s.users.rows then Ok(s.(currentUser := Some(who.id)), who.id)
      else
        match RegisterUser(s, identity, txId, now)
        case Ok(s1, _) => Ok(s1, who.id)
        case Fail(e) => Fail(e)
        case FailRecorded(e, _) => Fail(e)
  }

  /** Does the transaction move credits from or to `userId`? */
  predicate Involves(t: Transaction, userId: string) {
    t.fromUserId == userId || t.toUserId == userId
  }

  function TxCreatedAt(t: Transaction): int { t.createdAt }

  /**
   * `getUserTransactions`: every transaction from or to the user, newest
   * first; equal times keep table order.
   */
  function GetUserTransactions(s: State, userId: string): (r: seq<Transaction>)
    ensures SortedBy(r, TxCreatedAt, true)
    ensures forall t :: multiset(r)[t] == if Involves(t, userId) then multiset(Values(s.transactions))[t] else 0
    ensures forall t :: t in r <==>
      (Involves(t, userId) && exists k :: k in s.transactions.rows && s.transactions.rows[k] == t)
  {
    var mine := Filter(Values(s.transactions), (t: Transaction) => Involves(t, userId));
    var r := SortBy(mine, TxCreatedAt, true);
    forall t ensures t in Values(s.transactions) <==> exists k :: k in s.transactions.rows && s.transactions.rows[k] == t {
      ValuesAreRows(s.transactions, t);
    }
    forall t ensures t in r <==> t in mine {
      assert t in r <==> t in multiset(r);
      assert t in mine <==> t in multiset(mine);
    }
    r
  }
}
