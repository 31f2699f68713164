/**
 * Properties of registration: it happens once, it mints exactly the signup
 * bonus (plus the system account's opening balance the first time), and the
 * signup record shows up in the new user's history.
 */
module UserProperties {
  import opened Wrappers
  import opened Seqs
  import opened Tables
  import opened Types
  import opened Timebank
  import opened UserService

  /** Registering the same person again returns the stored record and changes nothing. */
  lemma RegisterIsIdempotent(s: State, who: Identity, txId: string, txId2: string, now: int, later: int)
    ensures var r1 := RegisterUser(s, Some(who), txId, now);
      RegisterUser(r1.newState, Some(who), txId2, later) == Ok(r1.newState, r1.value)
  {
    var r1 := RegisterUser(s, Some(who), txId, now);
    if who.id !in s.users.rows {
      assert r1.newState.users.rows[who.id] == r1.value;
    }
  }

  /**
   * A new registration mints the signup bonus, and also the system
   * account's opening balance when that account did not exist; no existing
   * balance changes.
   */
  lemma SignupMintsBonus(s: State, who: Identity, txId: string, now: int)
    requires who.id !in s.users.rows && who.id != SystemUserId
    ensures var r := RegisterUser(s, Some(who), txId, now);
      && TotalCredits(r.newState.users)
         == TotalCredits(s.users) + SignupBonusAmount + (if SystemUserId in s.users.rows then 0 else MaxSafeInteger)
      && Balance(r.newState, who.id) == SignupBonusAmount
      && forall k :: k in s.users.rows ==> Balance(r.newState, k) == Balance(s, k)
  {
    var r := RegisterUser(s, Some(who), txId, now);
    var member := NewMember(who, now);
    if SystemUserId in s.users.rows {
      var sys := s.users.rows[SystemUserId];
      TotalCreditsPut(s.users, SystemUserId, sys);
      var u1 := Put(s.users, SystemUserId, sys);
      TotalCreditsPutFresh(u1, who.id, member);
      assert r.newState.users == Put(u1, who.id, member);
    } else {
      var sys := DefaultSystemUser(now);
      TotalCreditsPutFresh(s.users, SystemUserId, sys);
      var u1 := Put(s.users, SystemUserId, sys);
      TotalCreditsPutFresh(u1, who.id, member);
      assert r.newState.users == Put(u1, who.id, member);
    }
  }

  /** After a successful call the person is registered and is the current user. */
  lemma EnsureMakesCurrent(s: State, who: Identity, txId: string, now: int)
    ensures var r := EnsureUserRegistered(s, Some(who), txId, now);
      r.Ok? && who.id in r.newState.users.rows && r.newState.currentUser == Some(who.id)
  {
  }

  /** The signup bonus appears in the new member's transaction history. */
  lemma SignupInHistory(s: State, who: Identity, txId: string, now: int)
    requires who.id !in s.users.rows
    ensures var r := RegisterUser(s, Some(who), txId, now);
      SignupRecord(who.id, txId, now) in GetUserTransactions(r.newState, who.id)
  {
    var r := RegisterUser(s, Some(who), txId, now);
    assert txId in r.newState.transactions.rows && r.newState.transactions.rows[txId] == SignupRecord(who.id, txId, now);
  }
}
