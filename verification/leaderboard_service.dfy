/**
 * Per-user activity counters and the ranked leaderboards built from them.
 */
module LeaderboardService {
  import opened Wrappers
  import opened Seqs
  import opened Tables
  import opened Types
  import opened Timebank

  /** FASTEST_RESPONDERS ranks only users with at least this many completed gigs. */
  const MinGigsForResponseRanking: int := 3
  /** The number of entries `getLeaderboard` returns when no limit is given. */
  const DefaultLimit: int := 10

  // ----- statistics -----

  /** The counters of a user with no recorded activity. */
  function FreshStats(userId: string, now: int): UserStats {
    UserStats(userId, 0, 0, [], 0, 0, now)
  }

  /**
   * `updateUserStats`: one more completion for `userId` in the gig's
   * category. All three completion counters go up by one, the category is
   * remembered once, and the activity time is `now`.
   */
  function UpdateUserStats(s: State, userId: string, gigId: string, now: int): (r: Reply<()>)
    ensures !r.FailRecorded?
    ensures r.Ok? <==> gigId in s.gigs.rows && userId in s.users.rows
    ensures !r.Ok? ==> r == Fail(GigOrUserNotFound)
    ensures r.Ok? ==> userId in r.newState.userStats.rows
    ensures r.Ok? ==>
      var before := Get(s.userStats, userId).GetOr(FreshStats(userId, now));
      var after := Get(r.newState.userStats, userId).GetOr(before);
      && after.completedGigs == before.completedGigs + 1
      && after.weeklyCompletions == before.weeklyCompletions + 1
      && after.seasonalCompletions == before.seasonalCompletions + 1
      && (forall c :: c in after.uniqueCategories <==> c in before.uniqueCategories || c == s.gigs.rows[gigId].category)
      && (NoDup(before.uniqueCategories) ==> NoDup(after.uniqueCategories))
      && after.lastActivityAt == now
      && after.userId == before.userId && after.averageResponseTime == before.averageResponseTime
    ensures r.Ok? ==> forall k :: k != userId ==> Get(r.newState.userStats, k) == Get(s.userStats, k)
    ensures r.Ok? ==> r.newState.(userStats := s.userStats) == s
  {
    if gigId !in s.gigs.rows || userId !in s.users.rows then Fail(GigOrUserNotFound)
    else
      var current := Get(s.userStats, userId).GetOr(FreshStats(userId, now));
      var updated := current.(completedGigs := current.completedGigs + 1,
                              weeklyCompletions := current.weeklyCompletions + 1,
                              seasonalCompletions := current.seasonalCompletions + 1,
                              uniqueCategories := AppendIfAbsent(current.uniqueCategories, s.gigs.rows[gigId].category),
                              lastActivityAt := now);
      Ok(s.(userStats := Put(s.userStats, userId, updated)), ())
  }

  /** `resetWeeklyStats`: every weekly counter goes back to zero. */
  function ResetWeeklyStats(s: State): (r: State)
    ensures r.userStats.order == s.userStats.order && r.userStats.rows.Keys == s.userStats.rows.Keys
    ensures forall k :: k in s.userStats.rows ==>
      r.userStats.rows[k] == s.userStats.rows[k].(weeklyCompletions := 0)
    ensures r.(userStats := s.userStats) == s
  {
    s.(userStats := MapValues(s.userStats, (st: UserStats) => st.(weeklyCompletions := 0)))
  }

  /** `resetSeasonalStats`: every seasonal and weekly counter goes back to zero. */
  function ResetSeasonalStats(s: State): (r: State)
    ensures r.userStats.order == s.userStats.order && r.userStats.rows.Keys == s.userStats.rows.Keys
    ensures forall k :: k in s.userStats.rows ==>
      r.userStats.rows[k] == s.userStats.rows[k].(weeklyCompletions := 0, seasonalCompletions := 0)
    ensures r.(userStats := s.userStats) == s
  {
    s.(userStats := MapValues(s.userStats, (st: UserStats) => st.(seasonalCompletions := 0, weeklyCompletions := 0)))
  }

  // ----- leaderboards -----

  /**
   * The score of a user's counters. TOP_HELPERS counts completions in the
   * period, FASTEST_RESPONDERS uses the average response time and
   * DIVERSE_SKILLERS the number of categories; WEEKLY_CHAMPIONS has no
   * scoring rule and scores 0.
   */
  function Score(st: UserStats, category: LeaderboardCategory, period: LeaderboardPeriod): (n: int)
    ensures category == TopHelpers && period == Weekly ==> n == st.weeklyCompletions
    ensures category == TopHelpers && period == Seasonal ==> n == st.seasonalCompletions
    ensures category == TopHelpers && period == AllTime ==> n == st.completedGigs
    ensures category == FastestResponders ==> n == st.averageResponseTime
    ensures category == DiverseSkillers ==> n == |st.uniqueCategories|
    ensures category == WeeklyChampions ==> n == 0
  {
    match category
    case TopHelpers =>
      if period == Weekly then st.weeklyCompletions
      else if period == Seasonal then st.seasonalCompletions
      else st.completedGigs
    case FastestResponders => st.averageResponseTime
    case DiverseSkillers => |st.uniqueCategories|
    case WeeklyChampions => 0
  }

  /** Does a user's record take part in the board? Registered users only; response ranking needs three completions. */
  predicate Eligible(s: State, st: UserStats, category: LeaderboardCategory) {
    st.userId in s.users.rows
    && !(category == FastestResponders && st.completedGigs < MinGigsForResponseRanking)
  }

  /** The unranked entry of an eligible record. */
  function EntryOf(s: State, st: UserStats, category: LeaderboardCategory, period: LeaderboardPeriod): LeaderboardEntry
    requires st.userId in s.users.rows
  {
    LeaderboardEntry(st.userId, s.users.rows[st.userId].username, 0, Score(st, category, period), category, period)
  }

  /** The unranked entries of the eligible records, in record order. */
  function Entries(s: State, stats: seq<UserStats>, category: LeaderboardCategory, period: LeaderboardPeriod)
    : (r: seq<LeaderboardEntry>)
    ensures |r| <= |stats|
    ensures forall x :: x in r ==> exists st :: st in stats && Eligible(s, st, category) && x == EntryOf(s, st, category, period)
    ensures forall st :: st in stats && Eligible(s, st, category) ==> EntryOf(s, st, category, period) in r
  {
    if stats == [] then []
    else
      var rest := Entries(s, stats[1..], category, period);
      assert forall st :: st in stats[1..] ==> st in stats;
      assert forall st :: st in stats ==> st == stats[0] || st in stats[1..];
      if Eligible(s, stats[0], category) then [EntryOf(s, stats[0], category, period)] + rest else rest
  }

  /** JavaScript `slice(0, limit)`: a negative limit counts back from the end. */
  function SliceEnd(len: nat, limit: int): (n: nat)
    ensures n <= len
    ensures 0 <= limit ==> n == if limit < len then limit else len
    ensures limit < 0 ==> n == if len + limit > 0 then len + limit else 0
  {
    if limit >= 0 then (if limit < len then limit else len)
    else if len + limit > 0 then len + limit else 0
  }

  function EntryScore(x: LeaderboardEntry): int { x.score }

  /** Lower response times rank first; every other board ranks higher scores first. */
  predicate Descending(category: LeaderboardCategory) { category != FastestResponders }

  /** Ranks 1, 2, ... in list order. */
  function Ranked(xs: seq<LeaderboardEntry>): (r: seq<LeaderboardEntry>)
    ensures |r| == |xs|
    ensures forall i :: 0 <= i < |xs| ==> r[i] == xs[i].(rank := i + 1)
  {
    seq(|xs|, i requires 0 <= i < |xs| => xs[i].(rank := i + 1))
  }

  /**
   * `getLeaderboard`: the eligible users' entries sorted by score (stably,
   * ascending for response time and descending otherwise), cut to `limit`
   * and ranked from 1.
   */
  function GetLeaderboard(s: State, category: LeaderboardCategory, period: LeaderboardPeriod, limit: int)
    : (r: seq<LeaderboardEntry>)
    ensures var all := Entries(s, Values(s.userStats), category, period);
      exists sorted: seq<LeaderboardEntry> ::
        && multiset(sorted) == multiset(all)
        && SortedBy(sorted, EntryScore, Descending(category))
        && |r| == SliceEnd(|sorted|, limit)
        && forall i :: 0 <= i < |r| ==> r[i] == sorted[i].(rank := i + 1)
  {
    var all := Entries(s, Values(s.userStats), category, period);
    var sorted := SortBy(all, EntryScore, Descending(category));
    Ranked(sorted[..SliceEnd(|sorted|, limit)])
  }
}
