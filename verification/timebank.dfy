/**
 * The state snapshot every service receives and returns, the result shape of
 * the services, and the add-to-table helpers.
 */
module Timebank {
  import opened Wrappers
  import opened Tables
  import opened Types

  /** `TimebankState`; the optional community-analytics summary is not carried. */
  datatype State = State(
    users: Table<User>,
    gigs: Table<Gig>,
    transactions: Table<Transaction>,
    weeklyEvents: Table<WeeklyEvent>,
    leaderboards: Table<seq<LeaderboardEntry>>,
    userStats: Table<UserStats>,
    moderationActions: Table<ModerationAction>,
    disputes: Table<Dispute>,
    userModerationStatus: Table<UserModerationStatus>,
    currentUser: Option<string>)

  /**
   * `{ success, error?, newState?, ... }`: success carries the new snapshot and
   * the operation's output; failure carries an error and, only where the
   * ledger records a FAILED transaction, the snapshot holding that record.
   */
  datatype Reply<T> =
    | Ok(newState: State, value: T)
    | Fail(error: Error)
    | FailRecorded(error: Error, newState: State)

  /** The id of the account that funds minted credits. */
  const SystemUserId: string := "system"

  /** `initialState` */
  function InitialState(): (s: State)
    ensures s.users.rows == map[] && s.gigs.rows == map[] && s.transactions.rows == map[]
    ensures s.weeklyEvents.rows == map[] && s.leaderboards.rows == map[] && s.userStats.rows == map[]
    ensures s.moderationActions.rows == map[] && s.disputes.rows == map[]
    ensures s.userModerationStatus.rows == map[]
    ensures s.currentUser.None?
  {
    State(Empty(), Empty(), Empty(), Empty(), Empty(), Empty(), Empty(), Empty(), Empty(), None)
  }

  /** `addUser`: stores the user under its own id. */
  function AddUser(s: State, u: User): (r: State)
    ensures Get(r.users, u.id) == Some(u)
    ensures forall k :: k != u.id ==> Get(r.users, k) == Get(s.users, k)
    ensures r.users.rows.Keys == s.users.rows.Keys + {u.id}
    ensures r.(users := s.users) == s
  {
    s.(users := Put(s.users, u.id, u))
  }

  /** `addGig`: stores the gig under its own id. */
  function AddGig(s: State, g: Gig): (r: State)
    ensures Get(r.gigs, g.id) == Some(g)
    ensures forall k :: k != g.id ==> Get(r.gigs, k) == Get(s.gigs, k)
    ensures r.gigs.rows.Keys == s.gigs.rows.Keys + {g.id}
    ensures r.(gigs := s.gigs) == s
  {
    s.(gigs := Put(s.gigs, g.id, g))
  }

  /** `addTransaction`: stores the transaction under its own id. */
  function AddTransaction(s: State, t: Transaction): (r: State)
    ensures Get(r.transactions, t.id) == Some(t)
    ensures forall k :: k != t.id ==> Get(r.transactions, k) == Get(s.transactions, k)
    ensures r.transactions.rows.Keys == s.transactions.rows.Keys + {t.id}
    ensures r.(transactions := s.transactions) == s
  {
    s.(transactions := Put(s.transactions, t.id, t))
  }

  /** The balance of a user, or 0 for an unknown id. */
  function Balance(s: State, id: string): int {
    if id in s.users.rows then s.users.rows[id].timeCredits else 0
  }

  /** The sum of the balances listed in `keys`. */
  function SumCredits(keys: seq<string>, users: map<string, User>): int {
    if keys == [] then 0
    else (if keys[0] in users then users[keys[0]].timeCredits else 0) + SumCredits(keys[1..], users)
  }

  /** All time credits held by registered users. */
  function TotalCredits(users: Table<User>): int {
    SumCredits(users.order, users.rows)
  }

  /** Changing one listed user's balance moves the sum by the same amount. */
  lemma {:induction false} SumCreditsUpdate(keys: seq<string>, users: map<string, User>, k: string, u: User)
    requires k in users
    requires Seqs.NoDup(keys)
    ensures k in keys ==> SumCredits(keys, users[k := u]) == SumCredits(keys, users) - users[k].timeCredits + u.timeCredits
    ensures k !in keys ==> SumCredits(keys, users[k := u]) == SumCredits(keys, users)
  {
    if keys != [] {
      assert Seqs.NoDup(keys[1..]) by {
        forall i, j | 0 <= i < j < |keys[1..]| ensures keys[1..][i] != keys[1..][j] {
          assert keys[1..][i] == keys[i + 1] && keys[1..][j] == keys[j + 1];
        }
      }
      SumCreditsUpdate(keys[1..], users, k, u);
      if keys[0] == k {
        assert k !in keys[1..] by {
          forall j | 0 <= j < |keys[1..]| ensures keys[1..][j] != k {
            assert keys[1..][j] == keys[j + 1];
          }
        }
      } else {
        assert k in keys <==> k in keys[1..] by {
          assert keys == [keys[0]] + keys[1..];
        }
      }
    }
  }

  /** Replacing a registered user's record changes total credits by the balance difference. */
  lemma TotalCreditsPut(users: Table<User>, k: string, u: User)
    requires k in users.rows
    ensures TotalCredits(Put(users, k, u)) == TotalCredits(users) - users.rows[k].timeCredits + u.timeCredits
  {
    SumCreditsUpdate(users.order, users.rows, k, u);
  }

  /** Balances of ids not listed do not contribute to the sum. */
  lemma {:induction false} SumCreditsUnlisted(keys: seq<string>, users: map<string, User>, k: string, u: User)
    requires k !in keys
    ensures SumCredits(keys, users[k := u]) == SumCredits(keys, users)
  {
    if keys != [] {
      assert k !in keys[1..];
      SumCreditsUnlisted(keys[1..], users, k, u);
    }
  }

  /** Listing one more id adds its balance to the sum. */
  lemma {:induction false} SumCreditsAppend(keys: seq<string>, users: map<string, User>, k: string)
    ensures SumCredits(keys + [k], users) == SumCredits(keys, users) + (if k in users then users[k].timeCredits else 0)
  {
    if keys != [] {
      assert (keys + [k])[1..] == keys[1..] + [k];
      SumCreditsAppend(keys[1..], users, k);
    } else {
      assert [k][1..] == [];
    }
  }

  /** Registering a new user adds that user's balance to the total. */
  lemma TotalCreditsPutFresh(users: Table<User>, k: string, u: User)
    requires k !in users.rows
    ensures TotalCredits(Put(users, k, u)) == TotalCredits(users) + u.timeCredits
  {
    assert k !in users.order;
    SumCreditsAppend(users.order, users.rows[k := u], k);
    SumCreditsUnlisted(users.order, users.rows, k, u);
  }
}
