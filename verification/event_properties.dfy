/**
 * Properties of weekly events across calls: one ACTIVE event per week,
 * the theme rotation between consecutive events, theme matching, expiry as
 * a pointwise map, and exactly one reward per participant.
 */
module EventProperties {
  import opened Wrappers
  import opened Seqs
  import opened Tables
  import opened Types
  import opened Text
  import opened Timebank
  import opened EventService

  /** Creating the week's event twice yields the same event and leaves the state as the first call left it. */
  lemma CreateTwiceSameWeek(s: State, theme: Option<EventTheme>, theme2: Option<EventTheme>,
                            goal: Option<int>, goal2: Option<int>, weekStart: int, weekEnd: int,
                            eventId: string, eventId2: string, now: int, later: int)
    requires eventId !in s.weeklyEvents.rows
    ensures var r1 := CreateWeeklyEvent(s, theme, goal, weekStart, weekEnd, eventId, now);
      CreateWeeklyEvent(r1.newState, theme2, goal2, weekStart, weekEnd, eventId2, later) == r1
  {
    var r1 := CreateWeeklyEvent(s, theme, goal, weekStart, weekEnd, eventId, now);
    if ActiveForWeek(s, weekStart).None? {
      var p := (e: WeeklyEvent) => IsActive(e) && e.startDate == weekStart;
      PutFreshValues(s.weeklyEvents, eventId, r1.value);
      var vs := Values(r1.newState.weeklyEvents);
      assert vs == Values(s.weeklyEvents) + [r1.value];
      assert forall j :: 0 <= j < |Values(s.weeklyEvents)| ==> !p(vs[j]);
      assert p(vs[|vs| - 1]);
    }
  }

  /**
   * When the community creates events with the theme left open, in
   * creation order, each event's theme follows the previous one in the
   * rotation.
   */
  lemma AutoThemesRotate(s: State, goal: Option<int>, weekStart: int, weekEnd: int, eventId: string, now: int)
    requires eventId !in s.weeklyEvents.rows
    requires ActiveForWeek(s, weekStart).None?
    requires forall e :: e in Values(s.weeklyEvents) ==> e.createdAt < now
    ensures var r := CreateWeeklyEvent(s, None, goal, weekStart, weekEnd, eventId, now);
      GetNextTheme(r.newState) == NextInRotation(r.value.theme)
  {
    var r := CreateWeeklyEvent(s, None, goal, weekStart, weekEnd, eventId, now);
    var e := r.value;
    assert e.createdAt == now;
    assert r.newState.weeklyEvents == Put(s.weeklyEvents, eventId, e);
    PutFreshValues(s.weeklyEvents, eventId, e);
    var vs := Values(r.newState.weeklyEvents);
    assert vs == Values(s.weeklyEvents) + [e];
    var sorted := SortBy(vs, CreatedAt, true);
    LatestFirst(vs, sorted);
    assert e in vs;
    assert sorted[0] == e;
  }

  /** Category names are already lower case. */
  lemma CategoryNameIsLower(c: GigCategory)
    ensures Lower(CategoryName(c)) == CategoryName(c)
  {
    var n := CategoryName(c);
    assert forall i :: 0 <= i < |n| ==> !('A' <= n[i] <= 'Z');
    LowerOfLower(n);
  }

  /** Theme names are already lower case. */
  lemma ThemeNameIsLower(t: EventTheme)
    ensures Lower(ThemeName(t)) == ThemeName(t)
  {
    var n := ThemeName(t);
    assert forall i :: 0 <= i < |n| ==> !('A' <= n[i] <= 'Z');
    LowerOfLower(n);
  }

  /**
   * A gig counts towards a themed event exactly when the category and the
   * theme name the same area; MIXED accepts every category, and household,
   * transportation and other gigs count only towards MIXED.
   */
  lemma ThemeMatching(c: GigCategory, t: EventTheme)
    ensures MatchesTheme(c, t) <==>
      || t == MixedTheme
      || (c == Tech && t == TechTheme)
      || (c == Creative && t == CreativeTheme)
      || (c == Education && t == EducationTheme)
      || (c == Care && t == CareTheme)
  {
    CategoryNameIsLower(c);
    ThemeNameIsLower(t);
    SameNameSameArea(c, t);
  }

  /** A category and a theme share a name exactly when they cover the same area. */
  lemma SameNameSameArea(c: GigCategory, t: EventTheme)
    ensures CategoryName(c) == ThemeName(t) <==>
      || (c == Tech && t == TechTheme)
      || (c == Creative && t == CreativeTheme)
      || (c == Education && t == EducationTheme)
      || (c == Care && t == CareTheme)
  {
    if CategoryName(c) == ThemeName(t) {
      assert |CategoryName(c)| == |ThemeName(t)|;
      assert CategoryName(c)[0] == ThemeName(t)[0];
    }
  }

  // ----- expiry -----

  /** An event after expiry: overdue ACTIVE events become EXPIRED, others stay. */
  function AfterExpiry(now: int): WeeklyEvent -> WeeklyEvent {
    (e: WeeklyEvent) => if Overdue(e, now) then e.(status := Expired) else e
  }

  /** Tables with the same order and the same rows are the same table. */
  lemma TableExt<T>(a: Table<T>, b: Table<T>)
    requires a.order == b.order && a.rows.Keys == b.rows.Keys
    requires forall k :: k in a.rows ==> a.rows[k] == b.rows[k]
    ensures a == b
  {
  }

  /**
   * The expiry loop from position `i` of the snapshot: when the events
   * already processed hold their expired form and the rest their original
   * form, the loop ends with every event in expired form.
   */
  lemma {:induction false} ExpireEachFrom(events: Table<WeeklyEvent>, t0: Table<WeeklyEvent>, i: nat, now: int)
    requires KeyedById(t0) && i <= |t0.order|
    requires events.order == t0.order && events.rows.Keys == t0.rows.Keys
    requires forall j :: 0 <= j < i ==> events.rows[t0.order[j]] == AfterExpiry(now)(t0.rows[t0.order[j]])
    requires forall j :: i <= j < |t0.order| ==> events.rows[t0.order[j]] == t0.rows[t0.order[j]]
    ensures ExpireEach(events, Values(t0)[i..], now) == MapValues(t0, AfterExpiry(now))
    decreases |t0.order| - i
  {
    var target := MapValues(t0, AfterExpiry(now));
    if i == |t0.order| {
      assert Values(t0)[i..] == [];
      forall k | k in events.rows ensures events.rows[k] == target.rows[k] {
        var j :| 0 <= j < |t0.order| && t0.order[j] == k;
      }
      TableExt(events, target);
    } else {
      var k := t0.order[i];
      var x := Values(t0)[i];
      assert x == t0.rows[k] && x.id == k;
      assert Values(t0)[i..][1..] == Values(t0)[i + 1..];
      var next := if Overdue(x, now) then Put(events, k, x.(status := Expired)) else events;
      assert ExpireEach(events, Values(t0)[i..], now) == ExpireEach(next, Values(t0)[i + 1..], now);
      forall j | 0 <= j < |t0.order| && j != i ensures t0.order[j] != k {
      }
      ExpireEachFrom(next, t0, i + 1, now);
    }
  }

  /** For events stored under their own ids, expiry is the pointwise map: each overdue ACTIVE event becomes EXPIRED. */
  lemma ExpireIsPointwise(s: State, now: int)
    requires KeyedById(s.weeklyEvents)
    ensures ExpireOldEvents(s, now) == s.(weeklyEvents := MapValues(s.weeklyEvents, AfterExpiry(now)))
  {
    var t0 := s.weeklyEvents;
    if forall e :: e in Values(t0) ==> !Overdue(e, now) {
      forall k | k in t0.rows ensures MapValues(t0, AfterExpiry(now)).rows[k] == t0.rows[k] {
        ValuesAreRows(t0, t0.rows[k]);
      }
      TableExt(MapValues(t0, AfterExpiry(now)), t0);
    } else {
      assert Values(t0)[0..] == Values(t0);
      ExpireEachFrom(t0, t0, 0, now);
    }
  }

  /** After expiry no ACTIVE event is past its end date, and expiring again changes nothing. */
  lemma ExpireIdempotent(s: State, now: int)
    requires KeyedById(s.weeklyEvents)
    ensures var s1 := ExpireOldEvents(s, now);
      && (forall k :: k in s1.weeklyEvents.rows ==> !Overdue(s1.weeklyEvents.rows[k], now))
      && ExpireOldEvents(s1, now) == s1
  {
    ExpireIsPointwise(s, now);
    var s1 := ExpireOldEvents(s, now);
    assert KeyedById(s1.weeklyEvents);
    ExpireIsPointwise(s1, now);
    var t1 := s1.weeklyEvents;
    forall k | k in t1.rows ensures MapValues(t1, AfterExpiry(now)).rows[k] == t1.rows[k] {
    }
    TableExt(MapValues(t1, AfterExpiry(now)), t1);
  }

  // ----- participants and rewards -----

  /** No event lists a participant twice. */
  ghost predicate ParticipantsUnique(s: State) {
    forall k :: k in s.weeklyEvents.rows ==> NoDup(s.weeklyEvents.rows[k].participants)
  }

  /** Recording a completion never lists a participant twice. */
  lemma RecordKeepsParticipantsUnique(s: State, gigId: string, userId: string, stamp: string, now: int)
    requires ParticipantsUnique(s)
    ensures var r := RecordGigCompletion(s, gigId, userId, stamp, now);
      r.Ok? ==> ParticipantsUnique(r.newState)
  {
    if GetActiveEvent(s).Some? {
      var e := GetActiveEvent(s).value;
      ValuesAreRows(s.weeklyEvents, e);
    }
  }

  /** Creating an event never lists a participant twice. */
  lemma CreateKeepsParticipantsUnique(s: State, theme: Option<EventTheme>, goal: Option<int>,
                                      weekStart: int, weekEnd: int, eventId: string, now: int)
    requires ParticipantsUnique(s)
    ensures ParticipantsUnique(CreateWeeklyEvent(s, theme, goal, weekStart, weekEnd, eventId, now).newState)
  {
  }

  /**
   * When a completion reaches the goal, every registered participant of the
   * event (the completing user included) is credited the reward exactly once
   * and everybody else keeps their balance.
   */
  lemma GoalPaysEachParticipantOnce(s: State, gigId: string, userId: string, stamp: string, now: int, k: string)
    requires ParticipantsUnique(s)
    requires GetActiveEvent(s).Some? && gigId in s.gigs.rows
    requires MatchesTheme(s.gigs.rows[gigId].category, GetActiveEvent(s).value.theme)
    requires var e := GetActiveEvent(s).value; GoalReached(e, Progressed(e, userId))
    requires k in s.users.rows
    ensures var e := GetActiveEvent(s).value;
      var r := RecordGigCompletion(s, gigId, userId, stamp, now);
      && r == Ok(r.newState, true)
      && r.newState.users.rows[k].timeCredits
         == s.users.rows[k].timeCredits + (if k in e.participants || k == userId then e.rewardPerParticipant else 0)
  {
    var e := GetActiveEvent(s).value;
    ValuesAreRows(s.weeklyEvents, e);
    var e1 := Progressed(e, userId);
    NoDupOccursOnce(e1.participants, k);
  }
}
