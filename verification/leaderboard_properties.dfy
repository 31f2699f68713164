/**
 * Properties of the leaderboards: the leader has the best score, nobody
 * eligible is missing when the limit allows, response ranking only counts
 * experienced users, the category count is bounded, and the resets compose.
 */
module LeaderboardProperties {
  import opened Wrappers
  import opened Seqs
  import opened Tables
  import opened Types
  import opened Timebank
  import opened LeaderboardService

  /**
   * The sorted list of eligible entries a board is cut from. The sort is
   * stable: entries with equal scores keep the order of the statistics
   * table, which decides who of them survives the cut.
   */
  lemma SortedView(s: State, category: LeaderboardCategory, period: LeaderboardPeriod, limit: int)
    returns (sorted: seq<LeaderboardEntry>)
    ensures var r := GetLeaderboard(s, category, period, limit);
      && multiset(sorted) == multiset(Entries(s, Values(s.userStats), category, period))
      && SortedBy(sorted, EntryScore, Descending(category))
      && (forall v :: KeyRun(sorted, EntryScore, v) == KeyRun(Entries(s, Values(s.userStats), category, period), EntryScore, v))
      && |r| == SliceEnd(|sorted|, limit)
      && forall i :: 0 <= i < |r| ==> r[i] == sorted[i].(rank := i + 1)
  {
    sorted := SortBy(Entries(s, Values(s.userStats), category, period), EntryScore, Descending(category));
  }

  /** Every board entry comes from the record of an eligible user. */
  lemma EntryOrigin(s: State, category: LeaderboardCategory, period: LeaderboardPeriod, limit: int, x: LeaderboardEntry)
    returns (st: UserStats)
    requires x in GetLeaderboard(s, category, period, limit)
    ensures st in Values(s.userStats) && Eligible(s, st, category)
    ensures x == EntryOf(s, st, category, period).(rank := x.rank)
  {
    var r := GetLeaderboard(s, category, period, limit);
    var all := Entries(s, Values(s.userStats), category, period);
    var sorted := SortedView(s, category, period, limit);
    var i :| 0 <= i < |r| && r[i] == x;
    var y := sorted[i];
    assert x == y.(rank := i + 1);
    assert y in multiset(all);
    assert y in all;
    st :| st in Values(s.userStats) && Eligible(s, st, category) && y == EntryOf(s, st, category, period);
  }

  /** `a` scores at least as well as `b` on the board's ordering. */
  predicate AtLeastAsGood(a: int, b: int, category: LeaderboardCategory) {
    if Descending(category) then a >= b else a <= b
  }

  /** The first-ranked entry scores at least as well as every eligible user. */
  lemma LeaderHasBestScore(s: State, category: LeaderboardCategory, period: LeaderboardPeriod, limit: int,
                           st: UserStats)
    requires |GetLeaderboard(s, category, period, limit)| > 0
    requires st in Values(s.userStats) && Eligible(s, st, category)
    ensures var r := GetLeaderboard(s, category, period, limit);
      r[0].rank == 1 && AtLeastAsGood(r[0].score, Score(st, category, period), category)
  {
    var r := GetLeaderboard(s, category, period, limit);
    var all := Entries(s, Values(s.userStats), category, period);
    var sorted := SortedView(s, category, period, limit);
    var x := EntryOf(s, st, category, period);
    assert x in multiset(sorted);
    var j :| 0 <= j < |sorted| && sorted[j] == x;
    if j > 0 {
      assert Precedes(sorted[0], sorted[j], EntryScore, Descending(category));
    }
  }

  /** Ranks are 1, 2, 3, ... and scores never get better further down the board. */
  lemma BoardIsOrdered(s: State, category: LeaderboardCategory, period: LeaderboardPeriod, limit: int)
    ensures var r := GetLeaderboard(s, category, period, limit);
      && (forall i :: 0 <= i < |r| ==> r[i].rank == i + 1)
      && (forall i, j :: 0 <= i < j < |r| ==> AtLeastAsGood(r[i].score, r[j].score, category))
  {
    var r := GetLeaderboard(s, category, period, limit);
    var all := Entries(s, Values(s.userStats), category, period);
    var sorted := SortedView(s, category, period, limit);
    forall i, j | 0 <= i < j < |r| ensures AtLeastAsGood(r[i].score, r[j].score, category) {
      assert Precedes(sorted[i], sorted[j], EntryScore, Descending(category));
    }
  }

  /** Without a limit the board lists the ten best entries, or every entry when there are fewer. */
  lemma DefaultBoardIsTopTen(s: State, category: LeaderboardCategory, period: LeaderboardPeriod)
    ensures var n := |Entries(s, Values(s.userStats), category, period)|;
      |GetLeaderboard(s, category, period, DefaultLimit)| == if n < 10 then n else 10
  {
    var all := Entries(s, Values(s.userStats), category, period);
    var sorted: seq<LeaderboardEntry> :| && multiset(sorted) == multiset(all)
                  && |GetLeaderboard(s, category, period, DefaultLimit)| == SliceEnd(|sorted|, DefaultLimit);
    assert |sorted| == |multiset(sorted)| == |multiset(all)| == |all|;
  }

  /**
   * When the limit covers all eligible records, every eligible user is on
   * the board with the score their counters give.
   */
  lemma EveryoneListedUnderLimit(s: State, category: LeaderboardCategory, period: LeaderboardPeriod, limit: int,
                                 st: UserStats)
    requires limit >= |s.userStats.order|
    requires st in Values(s.userStats) && Eligible(s, st, category)
    ensures exists i :: 0 <= i < |GetLeaderboard(s, category, period, limit)|
                        && GetLeaderboard(s, category, period, limit)[i]
                           == EntryOf(s, st, category, period).(rank := i + 1)
  {
    var r := GetLeaderboard(s, category, period, limit);
    var all := Entries(s, Values(s.userStats), category, period);
    var sorted := SortedView(s, category, period, limit);
    assert |sorted| == |all|;
    var x := EntryOf(s, st, category, period);
    assert x in multiset(sorted);
    var j :| 0 <= j < |sorted| && sorted[j] == x;
    assert r[j] == x.(rank := j + 1);
  }

  /** Every entry on the response-time board belongs to a registered user with at least three completed gigs. */
  lemma FastestRespondersAreExperienced(s: State, period: LeaderboardPeriod, limit: int, x: LeaderboardEntry)
    requires x in GetLeaderboard(s, FastestResponders, period, limit)
    ensures x.userId in s.users.rows
    ensures exists st :: st in Values(s.userStats) && st.userId == x.userId
                         && st.completedGigs >= MinGigsForResponseRanking && x.score == st.averageResponseTime
  {
    var st := EntryOrigin(s, FastestResponders, period, limit, x);
  }

  // ----- counters -----

  /** Every record lists each category at most once. */
  ghost predicate CategoriesUnique(s: State) {
    forall k :: k in s.userStats.rows ==> NoDup(s.userStats.rows[k].uniqueCategories)
  }

  /** Recording a completion keeps the category lists free of repeats. */
  lemma UpdateKeepsCategoriesUnique(s: State, userId: string, gigId: string, now: int)
    requires CategoriesUnique(s)
    ensures var r := UpdateUserStats(s, userId, gigId, now); r.Ok? ==> CategoriesUnique(r.newState)
  {
    var r := UpdateUserStats(s, userId, gigId, now);
    if r.Ok? {
      assert NoDup(Get(s.userStats, userId).GetOr(FreshStats(userId, now)).uniqueCategories);
    }
  }

  /** There are seven categories, so a repeat-free category list has at most seven entries. */
  lemma DiversityBounded(cats: seq<GigCategory>)
    requires NoDup(cats)
    ensures |cats| <= 7
  {
    var all: set<GigCategory> := {Tech, Creative, Education, Household, Transportation, Care, Other};
    var present := set c | c in cats;
    NoDupCardinality(cats, present);
    forall c | c in present ensures c in all {
      match c
      case Tech => case Creative => case Education => case Household =>
      case Transportation => case Care => case Other =>
    }
    assert |all| == 7;
    SubsetCardinality(present, all);
  }

  /** A subset is no larger than its superset. */
  lemma SubsetCardinality<T>(a: set<T>, b: set<T>)
    requires a <= b
    ensures |a| <= |b|
  {
    assert b == a + (b - a);
  }

  /** With repeat-free category lists, no DIVERSE_SKILLERS score exceeds seven. */
  lemma DiverseScoreAtMostSeven(s: State, period: LeaderboardPeriod, limit: int, x: LeaderboardEntry)
    requires CategoriesUnique(s)
    requires x in GetLeaderboard(s, DiverseSkillers, period, limit)
    ensures x.score <= 7
  {
    var st := EntryOrigin(s, DiverseSkillers, period, limit, x);
    ValuesAreRows(s.userStats, st);
    DiversityBounded(st.uniqueCategories);
  }

  /** Each completion moves the user's all-time TOP_HELPERS score up by exactly one. */
  lemma UpdateRaisesAllTimeScore(s: State, userId: string, gigId: string, now: int)
    requires UpdateUserStats(s, userId, gigId, now).Ok?
    ensures var before := Get(s.userStats, userId).GetOr(FreshStats(userId, now));
      var after := UpdateUserStats(s, userId, gigId, now).newState.userStats.rows[userId];
      Score(after, TopHelpers, AllTime) == Score(before, TopHelpers, AllTime) + 1
      && Score(after, TopHelpers, Weekly) == Score(before, TopHelpers, Weekly) + 1
  {
    var r := UpdateUserStats(s, userId, gigId, now);
    assert Get(r.newState.userStats, userId).Some?;
  }

  // ----- resets -----

  /** After the weekly reset every weekly TOP_HELPERS score is zero. */
  lemma WeeklyBoardEmptyAfterReset(s: State, limit: int, x: LeaderboardEntry)
    requires x in GetLeaderboard(ResetWeeklyStats(s), TopHelpers, Weekly, limit)
    ensures x.score == 0
  {
    var s1 := ResetWeeklyStats(s);
    var st := EntryOrigin(s1, TopHelpers, Weekly, limit, x);
    ValuesAreRows(s1.userStats, st);
  }

  /** Resets are idempotent, and the seasonal reset subsumes the weekly one in either order. */
  lemma ResetsCompose(s: State)
    ensures ResetWeeklyStats(ResetWeeklyStats(s)) == ResetWeeklyStats(s)
    ensures ResetSeasonalStats(ResetSeasonalStats(s)) == ResetSeasonalStats(s)
    ensures ResetWeeklyStats(ResetSeasonalStats(s)) == ResetSeasonalStats(s)
    ensures ResetSeasonalStats(ResetWeeklyStats(s)) == ResetSeasonalStats(s)
  {
    var w := ResetWeeklyStats(s);
    var z := ResetSeasonalStats(s);
    assert ResetWeeklyStats(w).userStats.rows == w.userStats.rows;
    assert ResetSeasonalStats(z).userStats.rows == z.userStats.rows;
    assert ResetWeeklyStats(z).userStats.rows == z.userStats.rows;
    assert ResetSeasonalStats(w).userStats.rows == z.userStats.rows;
  }
}
