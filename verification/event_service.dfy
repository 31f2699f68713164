/**
 * Weekly community events: one ACTIVE event per week with a rotating theme,
 * progress counted from matching gig completions, and a fixed reward minted
 * to every participant once the goal is reached.
 */
module EventService {
  import opened Wrappers
  import opened Seqs
  import opened Tables
  import opened Types
  import opened Text
  import opened Timebank

  /** Credits minted to each participant of a completed event. */
  const RewardPerParticipant: int := 2

  /** Themes in rotation order. */
  const ThemeRotation: seq<EventTheme> := [TechTheme, CreativeTheme, EducationTheme, CareTheme, MixedTheme]

  // ----- goals and themes -----

  /** The goal for a community of `userCount` users: 5, 15, 30 or 50 completions. */
  function GoalForCommunity(userCount: nat): (g: int)
    ensures userCount < 10 ==> g == 5
    ensures 10 <= userCount < 50 ==> g == 15
    ensures 50 <= userCount < 100 ==> g == 30
    ensures 100 <= userCount ==> g == 50
  {
    if userCount < 10 then 5
    else if userCount < 50 then 15
    else if userCount < 100 then 30
    else 50
  }

  /** `calculateGoalAmount`: the goal for the number of registered users. */
  function CalculateGoalAmount(s: State): (g: int)
    ensures g == GoalForCommunity(|s.users.rows.Keys|)
  {
    NoDupCardinality(s.users.order, s.users.rows.Keys);
    GoalForCommunity(|s.users.order|)
  }

  /** A larger community never gets a smaller goal. */
  lemma GoalMonotone(a: nat, b: nat)
    requires a <= b
    ensures GoalForCommunity(a) <= GoalForCommunity(b)
  {
  }

  /** Position of a theme in the rotation. */
  function ThemeIndex(t: EventTheme): (i: nat)
    ensures i < |ThemeRotation| && ThemeRotation[i] == t
  {
    match t
    case TechTheme => 0
    case CreativeTheme => 1
    case EducationTheme => 2
    case CareTheme => 3
    case MixedTheme => 4
  }

  /** The theme after `t` in the rotation, wrapping from MIXED back to TECH. */
  function NextInRotation(t: EventTheme): (n: EventTheme)
    ensures n == ThemeRotation[(ThemeIndex(t) + 1) % |ThemeRotation|]
  {
    match t
    case TechTheme => CreativeTheme
    case CreativeTheme => EducationTheme
    case EducationTheme => CareTheme
    case CareTheme => MixedTheme
    case MixedTheme => TechTheme
  }

  /** `n` steps along the rotation from `t`. */
  function Steps(t: EventTheme, n: nat): EventTheme {
    if n == 0 then t else NextInRotation(Steps(t, n - 1))
  }

  /** The rotation comes back to a theme after exactly five steps and not before. */
  lemma RotationCycles(t: EventTheme)
    ensures Steps(t, 5) == t
    ensures forall n :: 1 <= n < 5 ==> Steps(t, n) != t
  {
    var s1 := NextInRotation(t);
    var s2 := NextInRotation(s1);
    var s3 := NextInRotation(s2);
    var s4 := NextInRotation(s3);
    assert Steps(t, 1) == s1 && Steps(t, 2) == s2 && Steps(t, 3) == s3 && Steps(t, 4) == s4;
    assert Steps(t, 5) == NextInRotation(s4);
  }

  function CreatedAt(e: WeeklyEvent): int { e.createdAt }

  /**
   * `getNextTheme`: TECH for the first event, otherwise the theme after the
   * most recently created event's (the earliest such in table order when
   * several share a creation time).
   */
  function GetNextTheme(s: State): (t: EventTheme)
    ensures s.weeklyEvents.order == [] ==> t == TechTheme
    ensures s.weeklyEvents.order != [] ==>
      exists e :: e in Values(s.weeklyEvents) && t == NextInRotation(e.theme)
                  && forall e' :: e' in Values(s.weeklyEvents) ==> e'.createdAt <= e.createdAt
  {
    var events := SortBy(Values(s.weeklyEvents), CreatedAt, true);
    if |events| == 0 then TechTheme
    else
      LatestFirst(Values(s.weeklyEvents), events);
      NextInRotation(events[0].theme)
  }

  /** The head of a list sorted by creation time, newest first, is one of the newest. */
  lemma LatestFirst(s: seq<WeeklyEvent>, sorted: seq<WeeklyEvent>)
    requires SortedBy(sorted, CreatedAt, true) && multiset(sorted) == multiset(s) && |sorted| > 0
    ensures sorted[0] in s
    ensures forall e :: e in s ==> e.createdAt <= sorted[0].createdAt
  {
    assert sorted[0] in multiset(sorted);
    forall e | e in s ensures e.createdAt <= sorted[0].createdAt {
      assert e in multiset(sorted);
      var j :| 0 <= j < |sorted| && sorted[j] == e;
      if j > 0 {
        assert Precedes(sorted[0], sorted[j], CreatedAt, true);
      }
    }
  }

  /** Titles, one per theme. */
  function EventTitle(t: EventTheme): string {
    match t
    case TechTheme => "\U{1F4BB} Tech Week Sprint"
    case CreativeTheme => "\U{1F3A8} Creative Week Sprint"
    case EducationTheme => "\U{1F4DA} Learning Week Sprint"
    case CareTheme => "\U{1F49A} Care & Support Sprint"
    case MixedTheme => "\U{1F31F} Community Sprint"
  }

  /** Descriptions, one per theme. */
  function EventDescription(t: EventTheme): string {
    match t
    case TechTheme => "Help the community with tech skills this week!"
    case CreativeTheme => "Share your creative talents with the community!"
    case EducationTheme => "Teach and learn together this week!"
    case CareTheme => "Support community members with care and assistance!"
    case MixedTheme => "All skills welcome - let's help each other!"
  }

  // ----- finding events -----

  predicate IsActive(e: WeeklyEvent) { e.status == Active }

  /** `getActiveEvent`: the first ACTIVE event in table order. */
  function GetActiveEvent(s: State): (r: Option<WeeklyEvent>)
    ensures r.None? <==> forall k :: k in s.weeklyEvents.rows ==> !IsActive(s.weeklyEvents.rows[k])
    ensures r.Some? ==> IsActive(r.value) && r.value in Values(s.weeklyEvents)
    ensures r.Some? ==> exists i :: 0 <= i < |Values(s.weeklyEvents)| && Values(s.weeklyEvents)[i] == r.value
                                    && forall j :: 0 <= j < i ==> !IsActive(Values(s.weeklyEvents)[j])
  {
    var r := Find(Values(s.weeklyEvents), IsActive);
    forall k | k in s.weeklyEvents.rows && r.None? ensures !IsActive(s.weeklyEvents.rows[k]) {
      ValuesAreRows(s.weeklyEvents, s.weeklyEvents.rows[k]);
    }
    r
  }

  /** The ACTIVE event of the week starting at `weekStart`, if one exists. */
  function ActiveForWeek(s: State, weekStart: int): (r: Option<WeeklyEvent>)
    ensures r.None? <==> forall e :: e in Values(s.weeklyEvents) ==> !(IsActive(e) && e.startDate == weekStart)
    ensures r.Some? ==> r.value in Values(s.weeklyEvents) && IsActive(r.value) && r.value.startDate == weekStart
  {
    Find(Values(s.weeklyEvents), (e: WeeklyEvent) => IsActive(e) && e.startDate == weekStart)
  }

  // ----- creating events -----

  /**
   * The goal an event gets: a supplied non-zero goal, otherwise the
   * community-size goal (a goal of 0 counts as not supplied).
   */
  function ChosenGoal(s: State, goalAmount: Option<int>): (g: int)
    ensures goalAmount.Some? && goalAmount.value != 0 ==> g == goalAmount.value
    ensures goalAmount.None? || goalAmount.value == 0 ==> g == CalculateGoalAmount(s)
  {
    if goalAmount.Some? && goalAmount.value != 0 then goalAmount.value else CalculateGoalAmount(s)
  }

  /**
   * `createWeeklyEvent` for the week `[weekStart, weekEnd]`: returns the
   * week's ACTIVE event unchanged when there is one, otherwise adds a new
   * ACTIVE event with no progress and no participants.
   */
  function CreateWeeklyEvent(s: State, theme: Option<EventTheme>, goalAmount: Option<int>,
                             weekStart: int, weekEnd: int, eventId: string, now: int): (r: Reply<WeeklyEvent>)
    ensures r.Ok?
    ensures ActiveForWeek(s, weekStart).Some? ==> r == Ok(s, ActiveForWeek(s, weekStart).value)
    ensures ActiveForWeek(s, weekStart).None? ==>
      var e := r.value;
      var t := theme.GetOr(GetNextTheme(s));
      && e.id == eventId && e.theme == t && e.title == EventTitle(t) && e.description == EventDescription(t)
      && e.status == Active && e.currentProgress == 0 && e.participants == []
      && e.rewardPerParticipant == RewardPerParticipant && e.goalAmount == ChosenGoal(s, goalAmount)
      && e.startDate == weekStart && e.endDate == weekEnd && e.createdAt == now && e.completedAt.None?
      && r.newState == s.(weeklyEvents := Put(s.weeklyEvents, eventId, e))
  {
    match ActiveForWeek(s, weekStart)
    case Some(existing) => Ok(s, existing)
    case None =>
      var t := if theme.Some? then theme.value else GetNextTheme(s);
      var e := WeeklyEvent(eventId, EventTitle(t), EventDescription(t), t, Active, ChosenGoal(s, goalAmount), 0,
                           RewardPerParticipant, weekStart, weekEnd, [], now, None);
      Ok(s.(weeklyEvents := Put(s.weeklyEvents, eventId, e)), e)
  }

  // ----- rewards -----

  /** The key of the reward transaction for `userId`; `stamp` stands for the creation millisecond. */
  function RewardId(eventId: string, userId: string, stamp: string): string {
    "tx_event_" + eventId + "_" + userId + "_" + stamp
  }

  /** The completed WEEKLY_EVENT_REWARD minted from the system account. */
  function RewardRecord(e: WeeklyEvent, eventId: string, userId: string, stamp: string, now: int): (t: Transaction)
    ensures t.fromUserId == SystemUserId && t.toUserId == userId && t.amount == e.rewardPerParticipant
    ensures t.txType == WeeklyEventReward && t.status == TxCompleted && t.gigId == ""
  {
    Transaction(RewardId(eventId, userId, stamp), SystemUserId, userId, "", e.rewardPerParticipant,
                WeeklyEventReward, TxCompleted, now, Some(now), "Weekly Event Reward: " + e.title)
  }

  /**
   * The balance half of the reward loop: each registered participant is
   * credited once per appearance in the list.
   */
  function CreditRewards(users: Table<User>, participants: seq<string>, reward: int): (r: Table<User>)
    ensures r.order == users.order && r.rows.Keys == users.rows.Keys
    decreases |participants|
  {
    if participants == [] then users
    else if participants[0] in users.rows then
      var id := participants[0];
      var u := users.rows[id];
      CreditRewards(Put(users, id, u.(timeCredits := u.timeCredits + reward)), participants[1..], reward)
    else
      CreditRewards(users, participants[1..], reward)
  }

  /** Each registered user is credited the reward once per appearance in the list, and nothing else about them changes. */
  lemma {:induction false} CreditRewardsEffect(users: Table<User>, participants: seq<string>, reward: int, k: string)
    requires k in users.rows
    ensures var r := CreditRewards(users, participants, reward);
      k in r.rows
      && r.rows[k] == users.rows[k].(timeCredits := users.rows[k].timeCredits + reward * Occurrences(participants, k))
    decreases |participants|
  {
    if participants != [] {
      var id := participants[0];
      var rest := participants[1..];
      if id in users.rows {
        var u := users.rows[id];
        var users' := Put(users, id, u.(timeCredits := u.timeCredits + reward));
        CreditRewardsEffect(users', rest, reward, k);
        if k == id {
          assert Occurrences(participants, k) == 1 + Occurrences(rest, k);
          assert reward * (1 + Occurrences(rest, k)) == reward + reward * Occurrences(rest, k);
        }
      } else {
        CreditRewardsEffect(users, rest, reward, k);
      }
    }
  }

  /** The reward keys the reward loop writes: one per registered participant. */
  function RewardKeys(registered: set<string>, participants: seq<string>, eventId: string, stamp: string): set<string> {
    set p | p in participants && p in registered :: RewardId(eventId, p, stamp)
  }

  /** Peeling the first participant off the loop peels its key (if any) off the key set. */
  lemma RewardKeysCons(registered: set<string>, participants: seq<string>, eventId: string, stamp: string)
    requires participants != []
    ensures RewardKeys(registered, participants, eventId, stamp)
            == (if participants[0] in registered then {RewardId(eventId, participants[0], stamp)} else {})
               + RewardKeys(registered, participants[1..], eventId, stamp)
  {
    assert participants == [participants[0]] + participants[1..];
    forall p | p in participants ensures p == participants[0] || p in participants[1..] { }
  }

  /**
   * The record half of the reward loop: each registered participant gets a
   * reward record. The loop adds no users, so `registered` is fixed.
   */
  function RecordRewards(registered: set<string>, txs: Table<Transaction>, participants: seq<string>,
                         e: WeeklyEvent, eventId: string, stamp: string, now: int): (r: Table<Transaction>)
    ensures r.rows.Keys == txs.rows.Keys + RewardKeys(registered, participants, eventId, stamp)
    ensures forall k :: k in txs.rows && k !in RewardKeys(registered, participants, eventId, stamp) ==>
      r.rows[k] == txs.rows[k]
    ensures forall k :: k in r.rows ==>
      (k in txs.rows && r.rows[k] == txs.rows[k])
      || (&& r.rows[k] == RewardRecord(e, eventId, r.rows[k].toUserId, stamp, now)
          && r.rows[k].toUserId in participants && r.rows[k].toUserId in registered)
    decreases |participants|
  {
    if participants == [] then txs
    else
      RewardKeysCons(registered, participants, eventId, stamp);
      if participants[0] in registered then
        var id := participants[0];
        RecordRewards(registered, Put(txs, RewardId(eventId, id, stamp), RewardRecord(e, eventId, id, stamp, now)),
                      participants[1..], e, eventId, stamp, now)
      else
        RecordRewards(registered, txs, participants[1..], e, eventId, stamp, now)
  }

  /** A participant's reward record, once written, stays as it is for the rest of the loop. */
  lemma {:induction false} RecordRewardsKeeps(registered: set<string>, txs: Table<Transaction>, participants: seq<string>,
                                              e: WeeklyEvent, eventId: string, stamp: string, now: int, userId: string)
    requires Get(txs, RewardId(eventId, userId, stamp)) == Some(RewardRecord(e, eventId, userId, stamp, now))
    ensures var r := RecordRewards(registered, txs, participants, e, eventId, stamp, now);
      Get(r, RewardId(eventId, userId, stamp)) == Some(RewardRecord(e, eventId, userId, stamp, now))
    decreases |participants|
  {
    if participants != [] {
      var id := participants[0];
      if id in registered {
        var txs' := Put(txs, RewardId(eventId, id, stamp), RewardRecord(e, eventId, id, stamp, now));
        if id != userId {
          assert RewardId(eventId, id, stamp) != RewardId(eventId, userId, stamp) by {
            if RewardId(eventId, id, stamp) == RewardId(eventId, userId, stamp) { RewardIdInjective(eventId, id, userId, stamp); }
          }
        }
        RecordRewardsKeeps(registered, txs', participants[1..], e, eventId, stamp, now, userId);
      } else {
        RecordRewardsKeeps(registered, txs, participants[1..], e, eventId, stamp, now, userId);
      }
    }
  }

  /** Every registered participant ends the loop with a reward record under its reward key. */
  lemma {:induction false} RecordRewardsWrites(registered: set<string>, txs: Table<Transaction>, participants: seq<string>,
                                               e: WeeklyEvent, eventId: string, stamp: string, now: int, userId: string)
    requires userId in participants && userId in registered
    ensures var r := RecordRewards(registered, txs, participants, e, eventId, stamp, now);
      Get(r, RewardId(eventId, userId, stamp)) == Some(RewardRecord(e, eventId, userId, stamp, now))
    decreases |participants|
  {
    var id := participants[0];
    if id in registered {
      var txs' := Put(txs, RewardId(eventId, id, stamp), RewardRecord(e, eventId, id, stamp, now));
      if id == userId {
        RecordRewardsKeeps(registered, txs', participants[1..], e, eventId, stamp, now, userId);
      } else {
        assert userId in participants[1..];
        RecordRewardsWrites(registered, txs', participants[1..], e, eventId, stamp, now, userId);
      }
    } else {
      assert userId in participants[1..];
      RecordRewardsWrites(registered, txs, participants[1..], e, eventId, stamp, now, userId);
    }
  }

  /** Distinct participants have distinct reward keys. */
  lemma RewardIdInjective(eventId: string, a: string, b: string, stamp: string)
    requires RewardId(eventId, a, stamp) == RewardId(eventId, b, stamp)
    ensures a == b
  {
    var p := "tx_event_" + eventId + "_";
    var q := "_" + stamp;
    assert RewardId(eventId, a, stamp) == p + a + q && RewardId(eventId, b, stamp) == p + b + q;
    assert |a| == |b|;
    assert a == (p + a + q)[|p|..|p| + |a|];
    assert b == (p + b + q)[|p|..|p| + |b|];
  }

  /**
   * `distributeRewards`: a COMPLETED event mints its reward to each
   * registered participant; unknown participants are skipped.
   */
  function DistributeRewards(s: State, eventId: string, stamp: string, now: int): (r: Reply<()>)
    ensures !r.FailRecorded?
    ensures r.Ok? <==> eventId in s.weeklyEvents.rows && s.weeklyEvents.rows[eventId].status == EventCompleted
    ensures !r.Ok? ==> r == Fail(EventNotCompleted)
    ensures r.Ok? ==>
      var e := s.weeklyEvents.rows[eventId];
      && r.newState.users.order == s.users.order && r.newState.users.rows.Keys == s.users.rows.Keys
      && (forall k :: k in s.users.rows ==>
            r.newState.users.rows[k] == s.users.rows[k].(timeCredits :=
              s.users.rows[k].timeCredits + e.rewardPerParticipant * Occurrences(e.participants, k)))
      && (forall p :: p in e.participants && p in s.users.rows ==>
            Get(r.newState.transactions, RewardId(eventId, p, stamp)) == Some(RewardRecord(e, eventId, p, stamp, now)))
      && (forall k :: k in r.newState.transactions.rows ==>
            (k in s.transactions.rows && r.newState.transactions.rows[k] == s.transactions.rows[k])
            || (&& r.newState.transactions.rows[k] == RewardRecord(e, eventId, r.newState.transactions.rows[k].toUserId, stamp, now)
                && r.newState.transactions.rows[k].toUserId in e.participants
                && r.newState.transactions.rows[k].toUserId in s.users.rows))
      && r.newState.transactions.rows.Keys
         == s.transactions.rows.Keys + RewardKeys(s.users.rows.Keys, e.participants, eventId, stamp)
      && (forall k :: k in s.transactions.rows && k !in RewardKeys(s.users.rows.Keys, e.participants, eventId, stamp) ==>
            r.newState.transactions.rows[k] == s.transactions.rows[k])
      && r.newState.(users := s.users, transactions := s.transactions) == s
  {
    if eventId !in s.weeklyEvents.rows || s.weeklyEvents.rows[eventId].status != EventCompleted then
      Fail(EventNotCompleted)
    else
      var e := s.weeklyEvents.rows[eventId];
      var users := CreditRewards(s.users, e.participants, e.rewardPerParticipant);
      var txs := RecordRewards(s.users.rows.Keys, s.transactions, e.participants, e, eventId, stamp, now);
      forall k | k in s.users.rows
        ensures users.rows[k] == s.users.rows[k].(timeCredits :=
                  s.users.rows[k].timeCredits + e.rewardPerParticipant * Occurrences(e.participants, k))
      {
        CreditRewardsEffect(s.users, e.participants, e.rewardPerParticipant, k);
      }
      forall p | p in e.participants && p in s.users.rows
        ensures Get(txs, RewardId(eventId, p, stamp)) == Some(RewardRecord(e, eventId, p, stamp, now))
      {
        RecordRewardsWrites(s.users.rows.Keys, s.transactions, e.participants, e, eventId, stamp, now, p);
      }
      Ok(s.(users := users, transactions := txs), ())
  }

  // ----- recording completions -----

  /** The lower-cased category name equals the lower-cased theme name, or the theme is MIXED. */
  predicate MatchesTheme(c: GigCategory, t: EventTheme) {
    t == MixedTheme || Lower(CategoryName(c)) == Lower(ThemeName(t))
  }

  /** The event after one more matching completion by `userId`. */
  function Progressed(e: WeeklyEvent, userId: string): (e': WeeklyEvent)
    ensures e'.currentProgress == e.currentProgress + 1
    ensures forall p :: p in e'.participants <==> p in e.participants || p == userId
    ensures NoDup(e.participants) ==> NoDup(e'.participants)
    ensures e' == e.(currentProgress := e'.currentProgress, participants := e'.participants)
  {
    e.(currentProgress := e.currentProgress + 1, participants := AppendIfAbsent(e.participants, userId))
  }

  /** Goal reached by this completion while the event was still ACTIVE. */
  predicate GoalReached(before: WeeklyEvent, after: WeeklyEvent) {
    after.currentProgress >= after.goalAmount && before.status == Active
  }

  /**
   * `recordGigCompletion`: counts a completed gig towards the ACTIVE event
   * when its category matches the theme; reaching the goal completes the
   * event and distributes the rewards. The value says whether rewards
   * were distributed.
   */
  function RecordGigCompletion(s: State, gigId: string, userId: string, stamp: string, now: int): (r: Reply<bool>)
    ensures !r.FailRecorded?
    ensures GetActiveEvent(s).None? ==> r == Ok(s, false)
    ensures GetActiveEvent(s).Some? && gigId !in s.gigs.rows ==> r == Fail(GigNotFound)
    ensures (GetActiveEvent(s).Some? && gigId in s.gigs.rows
             && !MatchesTheme(s.gigs.rows[gigId].category, GetActiveEvent(s).value.theme)) ==> r == Ok(s, false)
    ensures (GetActiveEvent(s).Some? && gigId in s.gigs.rows
             && MatchesTheme(s.gigs.rows[gigId].category, GetActiveEvent(s).value.theme)) ==>
      var e := GetActiveEvent(s).value;
      var e1 := Progressed(e, userId);
      && r.Ok?
      && (!GoalReached(e, e1) ==> r == Ok(s.(weeklyEvents := Put(s.weeklyEvents, e.id, e1)), false))
      && (GoalReached(e, e1) ==>
            var s1 := s.(weeklyEvents := Put(s.weeklyEvents, e.id, e1.(status := EventCompleted, completedAt := Some(now))));
            r == Ok(DistributeRewards(s1, e.id, stamp, now).newState, true))
  {
    match GetActiveEvent(s)
    case None => Ok(s, false)
    case Some(e) =>
      if gigId !in s.gigs.rows then Fail(GigNotFound)
      else if !MatchesTheme(s.gigs.rows[gigId].category, e.theme) then Ok(s, false)
      else
        var e1 := Progressed(e, userId);
        if GoalReached(e, e1) then
          var s1 := s.(weeklyEvents := Put(s.weeklyEvents, e.id, e1.(status := EventCompleted, completedAt := Some(now))));
          match DistributeRewards(s1, e.id, stamp, now)
          case Ok(s2, _) => Ok(s2, true)
          case _ => Ok(s1, false)
        else
          Ok(s.(weeklyEvents := Put(s.weeklyEvents, e.id, e1)), false)
  }

  // ----- expiry -----

  /** ACTIVE and past its end date. */
  predicate Overdue(e: WeeklyEvent, now: int) {
    e.status == Active && e.endDate < now
  }

  /** The expiry loop over a snapshot of the events, writing each expired event under its own id. */
  function ExpireEach(events: Table<WeeklyEvent>, snapshot: seq<WeeklyEvent>, now: int): (r: Table<WeeklyEvent>)
    decreases |snapshot|
  {
    if snapshot == [] then events
    else if Overdue(snapshot[0], now) then
      ExpireEach(Put(events, snapshot[0].id, snapshot[0].(status := Expired)), snapshot[1..], now)
    else
      ExpireEach(events, snapshot[1..], now)
  }

  /** Every event is stored under its own id. */
  predicate KeyedById(events: Table<WeeklyEvent>) {
    forall k :: k in events.rows ==> events.rows[k].id == k
  }

  /** `expireOldEvents`: every ACTIVE event whose end date has passed becomes EXPIRED. */
  function ExpireOldEvents(s: State, now: int): (r: State)
    ensures (forall e :: e in Values(s.weeklyEvents) ==> !Overdue(e, now)) ==> r == s
    ensures r == s.(weeklyEvents := r.weeklyEvents)
  {
    var snapshot := Values(s.weeklyEvents);
    if forall e :: e in snapshot ==> !Overdue(e, now) then s
    else s.(weeklyEvents := ExpireEach(s.weeklyEvents, snapshot, now))
  }
}
