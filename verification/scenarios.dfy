/**
 * Two complete walks through the gig lifecycle on a concrete community:
 * Alice holds 100 credits, Bob 50, and Alice asks for 30 credits of help.
 */
module Scenarios {
  import opened Wrappers
  import opened Seqs
  import opened Tables
  import opened Types
  import opened Text
  import opened Timebank
  import opened GigService
  import opened GigProperties

  function Alice(): User { User("alice", "Alice", 100, 0, [], 0, true) }
  function Bob(): User { User("bob", "Bob", 50, 0, [], 0, true) }

  function Community(): State { AddUser(AddUser(InitialState(), Alice()), Bob()) }

  /** Alice's request: FIND_HELP, so Alice pays whoever helps. */
  function Request(): GigDraft {
    GigDraft("Fix my bike", "Chain slipped off, need help", Transportation, FindHelp, 30, 60, [], false,
             "alice", None, None)
  }

  /** The trimmed title and description are long enough. */
  lemma RequestIsValid()
    ensures TrimmedLength(Request().title) >= MinTitleLength
    ensures TrimmedLength(Request().description) >= MinDescriptionLength
  {
    var t := Request().title;
    var d := Request().description;
    assert !IsWhitespace(t[0]) && !IsWhitespace(t[|t| - 1]);
    assert !IsWhitespace(d[0]) && !IsWhitespace(d[|d| - 1]);
    TrimOfTrimmed(t);
    TrimOfTrimmed(d);
  }

  /**
   * Five emoji make a title of five characters but ten UTF-16 code units,
   * which is long enough.
   */
  lemma EmojiTitleIsLongEnough()
    ensures var t := "\U{1F600}\U{1F600}\U{1F600}\U{1F600}\U{1F600}";
      |Trim(t)| == 5 && TrimmedLength(t) == 10 >= MinTitleLength
  {
    var t := "\U{1F600}\U{1F600}\U{1F600}\U{1F600}\U{1F600}";
    assert !IsWhitespace(t[0]) && !IsWhitespace(t[|t| - 1]);
    TrimOfTrimmed(t);
  }

  /** The status of the gig stored under `id`, if any. */
  function StatusOf(s: State, id: string): Option<GigStatus> {
    if id in s.gigs.rows then Some(s.gigs.rows[id].status) else None
  }

  /** Alice holds 100 credits, Bob 50, and nothing has been posted or paid yet. */
  predicate StartingPoint(s: State) {
    && Get(s.users, "alice") == Some(Alice()) && Get(s.users, "bob") == Some(Bob())
    && s.transactions.rows == map[] && s.gigs.rows == map[]
  }

  /** The community built from the initial state is such a starting point. */
  lemma CommunityIsStartingPoint()
    ensures StartingPoint(Community())
  {
    var s1 := AddUser(InitialState(), Alice());
    assert Get(s1.users, "alice") == Some(Alice());
    assert "bob" != "alice";
  }

  /** The posted request. */
  function Posted(): Gig { NewGig(Request(), "gig1", 1000) }

  /** Alice can post the request; it is stored as gig1 and nothing else changes. */
  lemma PostStep(s: State)
    requires StartingPoint(s)
    ensures var r := CreateGig(s, Request(), "gig1", 1000);
      && r.Ok? && r.newState.users == s.users && r.newState.transactions.rows == map[]
      && Get(r.newState.gigs, "gig1") == Some(Posted())
  {
    RequestIsValid();
  }

  /** Bob accepts the posted request. */
  lemma AcceptStep(s: State)
    requires Get(s.users, "alice") == Some(Alice()) && Get(s.users, "bob") == Some(Bob())
    requires Get(s.gigs, "gig1") == Some(Posted())
    ensures var r := AcceptGig(s, "gig1", "bob");
      && r.Ok? && r.newState.users == s.users && r.newState.transactions == s.transactions
      && Get(r.newState.gigs, "gig1") == Some(Posted().(status := Assigned, assignedTo := Some("bob")))
  {
    assert Posted().createdBy == "alice" != "bob";
  }

  /** Bob starts the accepted request. */
  lemma StartStep(s: State)
    requires Get(s.gigs, "gig1") == Some(Posted().(status := Assigned, assignedTo := Some("bob")))
    ensures var r := StartGig(s, "gig1", "bob");
      && r.Ok? && r.newState.users == s.users && r.newState.transactions == s.transactions
      && Get(r.newState.gigs, "gig1") == Some(Posted().(status := InProgress, assignedTo := Some("bob")))
  {
  }

  /** The request as Bob holds it, with `st` as its status. */
  function Held(st: GigStatus): Gig { Posted().(status := st, assignedTo := Some("bob")) }

  /** Settling the request moves 30 credits from Alice to Bob. */
  lemma SettlementStep(s: State, s': State, st: GigStatus)
    requires Get(s.users, "alice") == Some(Alice()) && Get(s.users, "bob") == Some(Bob())
    requires Transferred(s.users, s'.users, Payer(Held(st)), Payee(Held(st)), Held(st).timeCreditsOffered)
    ensures Balance(s', "alice") == 70 && Balance(s', "bob") == 80
  {
    assert Payer(Held(st)) == "alice" && Payee(Held(st)) == "bob";
  }

  /** Confirming the started request once completes it and pays Bob. */
  lemma ConfirmStartedStep(s: State)
    requires Get(s.users, "alice") == Some(Alice()) && Get(s.users, "bob") == Some(Bob())
    requires Get(s.gigs, "gig1") == Some(Held(InProgress)) && s.transactions.rows == map[]
    ensures var r := ConfirmGigCompletion(s, "gig1", "alice", "tx1", 5000);
      && r.Ok? && r.value == Some("tx1")
      && StatusOf(r.newState, "gig1") == Some(Completed)
      && Balance(r.newState, "alice") == 70 && Balance(r.newState, "bob") == 80
  {
    NoDupCardinality(s.transactions.order, s.transactions.rows.Keys);
    assert Values(s.transactions) == [];
    assert Payer(Held(InProgress)) == "alice";
    ConfirmFromInProgressPays(s, "gig1", "alice", "tx1", 5000);
    SettlementStep(s, ConfirmGigCompletion(s, "gig1", "alice", "tx1", 5000).newState, InProgress);
  }

  /** Confirming the accepted request twice: the first waits, the second completes it and pays Bob. */
  lemma ConfirmAcceptedTwiceStep(s: State)
    requires Get(s.users, "alice") == Some(Alice()) && Get(s.users, "bob") == Some(Bob())
    requires Get(s.gigs, "gig1") == Some(Held(Assigned)) && s.transactions.rows == map[]
    ensures var r3 := ConfirmGigCompletion(s, "gig1", "alice", "tx0", 4000);
      var r4 := ConfirmGigCompletion(r3.newState, "gig1", "bob", "tx1", 5000);
      && r3.Ok? && r3.value.None?
      && StatusOf(r3.newState, "gig1") == Some(AwaitingConfirmation)
      && Balance(r3.newState, "alice") == 100 && Balance(r3.newState, "bob") == 50
      && r3.newState.transactions.rows == map[]
      && r4.Ok? && StatusOf(r4.newState, "gig1") == Some(Completed)
      && Balance(r4.newState, "alice") == 70 && Balance(r4.newState, "bob") == 80
  {
    NoDupCardinality(s.transactions.order, s.transactions.rows.Keys);
    assert Values(s.transactions) == [];
    assert Payer(Held(Assigned)) == "alice";
    ConfirmFromAssignedDefersPayment(s, "gig1", "alice", "tx0", 4000);
    SecondConfirmationPays(s, "gig1", "alice", "bob", "tx0", "tx1", 4000, 5000);
    var s3 := ConfirmGigCompletion(s, "gig1", "alice", "tx0", 4000).newState;
    SettlementStep(s, ConfirmGigCompletion(s3, "gig1", "bob", "tx1", 5000).newState, Assigned);
  }

  /** Alice posts the request and Bob accepts it; `s2` is the state afterwards. */
  lemma PostAndAccept(s0: State) returns (s2: State)
    requires StartingPoint(s0)
    ensures var s1 := CreateGig(s0, Request(), "gig1", 1000);
      && s1.Ok? && AcceptGig(s1.newState, "gig1", "bob").Ok?
      && s2 == AcceptGig(s1.newState, "gig1", "bob").newState
    ensures Get(s2.users, "alice") == Some(Alice()) && Get(s2.users, "bob") == Some(Bob())
    ensures Get(s2.gigs, "gig1") == Some(Held(Assigned)) && s2.transactions.rows == map[]
  {
    PostStep(s0);
    var s1 := CreateGig(s0, Request(), "gig1", 1000).newState;
    AcceptStep(s1);
    s2 := AcceptGig(s1, "gig1", "bob").newState;
  }

  /**
   * Alice posts, Bob accepts and starts, Alice confirms once: the gig
   * completes and 30 credits move.
   */
  lemma StartThenConfirm(s0: State)
    requires StartingPoint(s0)
    ensures var s1 := CreateGig(s0, Request(), "gig1", 1000);
      s1.Ok? && (var s2 := AcceptGig(s1.newState, "gig1", "bob");
      s2.Ok? && (var s3 := StartGig(s2.newState, "gig1", "bob");
      s3.Ok? && (var s4 := ConfirmGigCompletion(s3.newState, "gig1", "alice", "tx1", 5000);
      && s4.Ok? && s4.value == Some("tx1") && StatusOf(s4.newState, "gig1") == Some(Completed)
      && Balance(s4.newState, "alice") == 70 && Balance(s4.newState, "bob") == 80)))
  {
    var s2 := PostAndAccept(s0);
    StartStep(s2);
    var s3 := StartGig(s2, "gig1", "bob").newState;
    ConfirmStartedStep(s3);
  }

  /**
   * Bob never starts: Alice's confirmation only waits, Bob's completes the
   * gig and moves the credits.
   */
  lemma ConfirmTwice(s0: State)
    requires StartingPoint(s0)
    ensures var s1 := CreateGig(s0, Request(), "gig1", 1000);
      s1.Ok? && (var s2 := AcceptGig(s1.newState, "gig1", "bob");
      s2.Ok? && (var s3 := ConfirmGigCompletion(s2.newState, "gig1", "alice", "tx0", 4000);
      && s3.Ok? && s3.value.None? && StatusOf(s3.newState, "gig1") == Some(AwaitingConfirmation)
      && Balance(s3.newState, "alice") == 100 && Balance(s3.newState, "bob") == 50
      && s3.newState.transactions.rows == map[]
      && (var s4 := ConfirmGigCompletion(s3.newState, "gig1", "bob", "tx1", 5000);
      && s4.Ok? && StatusOf(s4.newState, "gig1") == Some(Completed)
      && Balance(s4.newState, "alice") == 70 && Balance(s4.newState, "bob") == 80)))
  {
    var s2 := PostAndAccept(s0);
    ConfirmAcceptedTwiceStep(s2);
  }
}
