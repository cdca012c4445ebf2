/** Short runs that show where the code and its own documentation part: what
    starting over, finishing with an open batch, and a quiet poll can do. The
    exact conditions are in Discipline, Endings and Polls. */
module Gaps {
  import opened Prelude
  import opened SessionLogic
  import opened Tables
  import opened Pool
  import opened Handlers
  import opened Invariants
  import opened Runs
  import opened History
  import opened Discipline
  import opened Confluence
  import opened Endings
  import opened Polls
  import opened Views
  import E = Engine

  const CODE: Code := "sage-0001"

  function Dish(offered: nat, kept: nat): Item {
    Item(0, "Soup", {Dinner}, false, offered, kept)
  }

  function Table(status: Status): Session {
    Session(status, 0, Some(0), map[Dinner := 1], [])
  }

  const HOST := Person(CODE, Some(0), "Ann")

  const CREATE := Create(0, "Ann", Some(0), 0, 0, 1, 0, [CODE], [], 0)

  lemma RunMore(db: Db, actions: seq<Action>, a: Action)
    ensures Run(db, actions + [a]) == Step(Run(db, actions), a).0
  {
    assert (actions + [a])[..|actions|] == actions;
  }

  /** A library of one dish and a lobby with its host. */
  const LOBBY := Db(map[0 := Dish(0, 0)], 1, map[CODE := Table(Lobby)], map[CODE := 0],
                    map[0 := HOST], 1, map[], 0, map[], 0, map[])

  lemma CreateMakesLobby()
    ensures Step(EMPTY_DB.(items := map[0 := Dish(0, 0)], nextItem := 1), CREATE).0 == LOBBY
  {
    var library := EMPTY_DB.(items := map[0 := Dish(0, 0)], nextItem := 1);
    assert MealTargets(0, 0, 1) == map[Dinner := 1];
    assert Dinner in MealTargets(0, 0, 1);
    assert ChosenTargets(Some(0), 0, 0, 1, 0) == Ok(map[Dinner := 1]);
    assert library.sessions.Keys == {};
    assert MakeCode({}, [CODE]) == Some(CODE);
    assert CreateSession(library, 0, "Ann", Some(0), 0, 0, 1, 0, [CODE], [], 0).0 == LOBBY;
  }

  lemma ReachLobby()
    ensures Reached([AddItem(0, "Soup", {Dinner}), CREATE]) == LOBBY
  {
    hide Step;
    var add := AddItem(0, "Soup", {Dinner});
    RunMore(EMPTY_DB, [], add);
    RunMore(EMPTY_DB, [add], CREATE);
    assert [] + [add] == [add] && [add] + [CREATE] == [add, CREATE];
    assert Step(EMPTY_DB, add).0 == EMPTY_DB.(items := map[0 := Dish(0, 0)], nextItem := 1) by {
      FirstDish();
    }
    CreateMakesLobby();
  }

  lemma FirstDish()
    ensures Step(EMPTY_DB, AddItem(0, "Soup", {Dinner})).0 == EMPTY_DB.(items := map[0 := Dish(0, 0)], nextItem := 1)
  {
  }

  lemma OneDishPool(items: map<ItemId, Item>, s: Session)
    requires items.Keys == {0} && Eligible(items, s.collection, Dinner, 0)
    ensures PoolOf(items, 1, s, Dinner) == [0]
  {
    assert Fetch(items, s.collection, Dinner, 0) == [];
    assert Fetch(items, s.collection, Dinner, 1) == [0];
  }

  // ------------------------------------------------------------ starting over

  function ShutBatches(n: nat): (m: map<BatchId, Batch>)
    ensures forall b: nat :: b in m <==> b < n
    ensures forall b | b in m :: m[b] == Batch(CODE, b + 1, Dinner, false)
  {
    if n == 0 then map[] else ShutBatches(n - 1)[n - 1 := Batch(CODE, n, Dinner, false)]
  }

  function KeptOptions(n: nat): (m: map<BatchItemId, BatchItem>)
    ensures forall x: nat :: x in m <==> x < n
    ensures forall x | x in m :: m[x] == BatchItem(x, 0, 0, 1, 0, Some(KeptUnanimous))
  {
    if n == 0 then map[] else KeptOptions(n - 1)[n - 1 := BatchItem(n - 1, 0, 0, 1, 0, Some(KeptUnanimous))]
  }

  /** The dish kept unanimously in `n` batches of a session that wants it once. */
  function KeptTimes(n: nat): Db {
    Db(map[0 := Dish(n, n)], 1, map[CODE := Table(Voting)], map[CODE := 0], map[0 := HOST], 1,
       ShutBatches(n), n, KeptOptions(n), n, map[])
  }

  /** And dealt once more. */
  function DealtAgain(n: nat): Db {
    KeptTimes(n).(batches := ShutBatches(n)[n := Batch(CODE, n + 1, Dinner, true)], nextBatch := n + 1,
                  batchItems := KeptOptions(n)[n := BatchItem(n, 0, 0, 0, 0, None)], nextBatchItem := n + 1)
  }

  const START := Start(CODE, Some(0), 0)

  function SayYes(x: BatchItemId): Action {
    CastVote(CODE, Some(0), None, x, "yes", 0)
  }

  lemma DealsTheDish(db: Db)
    requires db.items.Keys == {0} && db.nextItem == 1 && CODE in db.sessions
    requires db.sessions[CODE] == Table(db.sessions[CODE].status) && Eligible(db.items, Some(0), Dinner, 0)
    ensures FirstTrack(db.sessions[CODE].targets) == Some(Dinner)
    ensures AssembleBatch(PoolOf(db.items, db.nextItem, db.sessions[CODE], Dinner), {}) == [0]
  {
    hide PoolOf;
    OneDishPool(db.items, db.sessions[CODE]);
    assert Unoffered([0], {}) == [0];
    assert FirstTrack(map[Dinner := 1], TRACK_ORDER[2..]) == Some(Dinner);
    assert FirstTrack(map[Dinner := 1]) == Some(Dinner);
  }

  lemma SeqAfter(n: nat)
    ensures NextSeq(SeqsOf(ShutBatches(n), CODE)) == n + 1
  {
    var seqs := SeqsOf(ShutBatches(n), CODE);
    if n > 0 {
      assert ShutBatches(n)[n - 1].seq_ in seqs;
    }
  }

  lemma OneOption(n: nat)
    ensures NewOptions(n, n, [0]) == map[n := BatchItem(n, 0, 0, 0, 0, None)]
  {
  }

  /** The tables after the dish is dealt as batch `n`. */
  function WithRound(db: Db, n: nat): Db {
    db.(batches := ShutBatches(n)[n := Batch(CODE, n + 1, Dinner, true)], nextBatch := n + 1,
        batchItems := db.batchItems[n := BatchItem(n, 0, 0, 0, 0, None)], nextBatchItem := n + 1)
  }

  lemma RoundOpens(db: Db, n: nat)
    requires db.batches == ShutBatches(n) && db.nextBatch == n && db.nextBatchItem == n
    ensures OpenRound(db, CODE, Dinner, [0]) == WithRound(db, n)
  {
    SeqAfter(n);
    OneOption(n);
    hide ShutBatches, NewOptions, NextSeq, SeqsOf;
    assert db.batchItems + map[n := BatchItem(n, 0, 0, 0, 0, None)]
        == db.batchItems[n := BatchItem(n, 0, 0, 0, 0, None)];
  }

  lemma NoneShutOpen(n: nat)
    ensures OpenBatches(ShutBatches(n), CODE) == {}
  {
    hide ShutBatches;
  }

  /** The lobby or the table between two batches: what a start looks at. */
  ghost predicate Ready(db: Db, n: nat) {
    && db.items.Keys == {0} && db.nextItem == 1 && Eligible(db.items, Some(0), Dinner, 0)
    && CODE in db.sessions && Live(db.sessions[CODE].status) && db.sessions[CODE] == Table(db.sessions[CODE].status)
    && CODE in db.activity && db.activity[CODE] == 0
    && db.batches == ShutBatches(n) && db.nextBatch == n && db.nextBatchItem == n
  }

  lemma HostAdmitted(db: Db, n: nat)
    requires Ready(db, n)
    ensures HostGate(db, CODE, Some(0), 0) == Admitted(db)
  {
    hide Eligible, ShutBatches, KeptOptions;
  }

  lemma FirstDealIsTheDish(db: Db, n: nat)
    requires Ready(db, n)
    ensures FirstDeal(db, CODE) == [0] && FirstTrack(db.sessions[CODE].targets) == Some(Dinner)
  {
    DealsTheDish(db);
    hide PoolOf, AssembleBatch, FirstTrack, ShutBatches, KeptOptions, Eligible;
  }

  lemma StartDealsOn(db: Db, n: nat)
    requires Ready(db, n)
    ensures StartVoting(db, CODE, Some(0), 0).0
            == WithRound(db, n).(sessions := db.sessions[CODE := Table(Voting)], activity := db.activity[CODE := 0])
  {
    NoneShutOpen(n);
    HostAdmitted(db, n);
    FirstDealIsTheDish(db, n);
    RoundOpens(db, n);
    hide StartVoting, FirstTrack, OpenRound, ShutBatches, Eligible, WithRound, HostGate, FirstDeal;
    StartDeals(db, CODE, Some(0), 0);
  }

  lemma StartIsStep(db: Db)
    ensures Step(db, START) == StartVoting(db, CODE, Some(0), 0)
  {
    hide StartVoting;
  }

  lemma VoteIsStep(db: Db, x: BatchItemId)
    ensures Step(db, SayYes(x)) == Vote(db, CODE, Some(0), None, x, "yes", 0)
  {
    hide Vote;
  }

  lemma TableReady(n: nat)
    ensures Ready(KeptTimes(n), n)
  {
    hide ShutBatches, KeptOptions;
  }

  lemma LobbyReady()
    ensures Ready(LOBBY, 0)
  {
    LobbyIsEmpty();
    hide ShutBatches, KeptOptions;
  }

  lemma StartDealsTheDish(db: Db, n: nat)
    requires db == KeptTimes(n) || (n == 0 && db == LOBBY)
    ensures Step(db, START).0 == DealtAgain(n)
  {
    hide Step, StartVoting, ShutBatches, KeptOptions, Ready;
    TableReady(n);
    LobbyReady();
    StartDealsOn(db, n);
    StartIsStep(db);
    assert db.sessions[CODE := Table(Voting)] == map[CODE := Table(Voting)];
    assert db.activity[CODE := 0] == map[CODE := 0];
  }

  lemma LobbyIsEmpty()
    ensures ShutBatches(0) == map[] && KeptOptions(0) == map[]
  {
  }

  lemma OneMoreShut(n: nat)
    ensures ShutTable(DealtAgain(n).batches, n) == ShutBatches(n + 1)
  {
    assert ShutBatches(n + 1) == ShutBatches(n)[n := Batch(CODE, n + 1, Dinner, false)];
    hide ShutBatches;
  }

  lemma OneMoreKept(n: nat)
    ensures var row := BatchItem(n, 0, 0, 1, 0, Some(KeptUnanimous));
            && Tallied(BatchItem(n, 0, 0, 0, 0, None), 1, 1) == row
            && E.OfferedOnce(Dish(n, n), row) == Dish(n + 1, n + 1)
            && DealtAgain(n).batchItems[n := row] == KeptOptions(n + 1)
  {
    assert KeptOptions(n + 1) == KeptOptions(n)[n := BatchItem(n, 0, 0, 1, 0, Some(KeptUnanimous))];
    hide KeptOptions, ShutBatches;
  }

  /** Votes on other options than `x`. */
  function Others(responses: map<Ballot, Choice>, x: BatchItemId): map<Ballot, Choice> {
    map k | k in responses && k.item != x :: responses[k]
  }

  /** Closing a batch of one option. */
  lemma OneOptionCloses(db: Db, b: BatchId, x: BatchItemId, yes: int, roster: int)
    requires b in db.batches && db.batches[b].open && ItemsOf(db.batchItems, b) == {x}
    requires |Roster(db.people, CODE)| == roster && |YesVoters(db.responses, x)| == yes
    requires x in db.batchItems && db.batchItems[x].item in db.items
    ensures var row := Tallied(db.batchItems[x], yes, roster);
            CloseRound(db, CODE, b)
            == db.(batchItems := db.batchItems[x := row], batches := ShutTable(db.batches, b),
                   responses := Others(db.responses, x),
                   items := db.items[row.item := E.OfferedOnce(db.items[row.item], row)])
  {
    var row := Tallied(db.batchItems[x], yes, roster);
    E.TallyNone(db.batchItems, db.responses, roster);
    E.TallyOneMore(db.batchItems, db.responses, {}, roster, x);
    E.CountNone(db.items, db.batchItems);
    E.CountOneMore(db.items, db.batchItems, row, {}, x);
    assert {} + {x} == {x};
    hide ItemsOf, Roster, YesVoters, Tallied, TallyTable, CountTable, ShutTable;
    assert DropBallots(db, {x}).responses == Others(db.responses, x);
  }

  lemma HostAnswered(db: Db, x: BatchItemId)
    requires Roster(db.people, CODE) == {0} && ItemsOf(db.batchItems, x) == {x} && Ballot(x, 0) in db.responses
    ensures EverybodyFinished(db, CODE, x)
  {
    EverybodyFinishedMeans(db, CODE, x);
    hide Roster, ItemsOf, EverybodyFinished;
  }

  lemma DishRound(n: nat)
    ensures Roster(DealtAgain(n).people, CODE) == {0} && ItemsOf(DealtAgain(n).batchItems, n) == {n}
  {
    hide ShutBatches, KeptOptions;
  }

  lemma YesFinishes(n: nat)
    ensures var cast := DealtAgain(n).(responses := map[Ballot(n, 0) := Yes]);
            EverybodyFinished(cast, CODE, n) && CloseRound(cast, CODE, n) == KeptTimes(n + 1)
  {
    var cast := DealtAgain(n).(responses := map[Ballot(n, 0) := Yes]);
    DishRound(n);
    OneYes(n);
    KeptOnceMore(n);
    hide ShutBatches, KeptOptions, EverybodyFinished;
    hide ItemsOf, Roster, YesVoters, ShutTable, Tallied, E.OfferedOnce;
    HostAnswered(cast, n);
    OneOptionCloses(cast, n, n, 1, 1);
  }

  lemma KeptOnceMore(n: nat)
    ensures var db, responses := DealtAgain(n), map[Ballot(n, 0) := Yes];
            var row := Tallied(db.batchItems[n], 1, 1);
            db.(batchItems := db.batchItems[n := row], batches := ShutTable(db.batches, n),
                responses := Others(responses, n),
                items := db.items[row.item := E.OfferedOnce(db.items[row.item], row)])
            == KeptTimes(n + 1)
  {
    OneMoreShut(n);
    OneMoreKept(n);
    hide ShutBatches, KeptOptions, ShutTable, Tallied, E.OfferedOnce;
    assert Others(map[Ballot(n, 0) := Yes], n) == map[];
    hide Others;
    assert map[0 := Dish(n, n)][0 := Dish(n + 1, n + 1)] == map[0 := Dish(n + 1, n + 1)];
  }

  lemma OneYes(x: BatchItemId)
    ensures YesVoters(map[Ballot(x, 0) := Yes], x) == {0}
  {
    assert Ballot(x, 0) in map[Ballot(x, 0) := Yes];
  }

  lemma YesKeepsTheDish(n: nat)
    ensures Step(DealtAgain(n), SayYes(n)).0 == KeptTimes(n + 1)
  {
    var db := DealtAgain(n);
    hide ShutBatches, KeptOptions, CloseRound, EverybodyFinished;
    YesFinishes(n);
    VoteCounts(db, CODE, n, Cast(0, Some(0), None, n, Yes, 0));
    VoteIsStep(db, n);
    hide Step, Vote;
    assert db.responses[Ballot(n, 0) := Yes] == map[Ballot(n, 0) := Yes];
    assert Touch(KeptTimes(n + 1), CODE, 0) == KeptTimes(n + 1);
  }

  /** Start and yes, `n` times over, after the lobby is made. */
  function OverAndOver(n: nat): seq<Action> {
    if n == 0 then [AddItem(0, "Soup", {Dinner}), CREATE] else OverAndOver(n - 1) + [START] + [SayYes(n - 1)]
  }

  lemma {:induction false} ReachKeptTimes(n: nat)
    ensures Reached(OverAndOver(n)) == if n == 0 then LOBBY else KeptTimes(n)
  {
    hide Step, Run, KeptTimes, DealtAgain;
    if n == 0 {
      ReachLobby();
    } else {
      ReachKeptTimes(n - 1);
      RunMore(EMPTY_DB, OverAndOver(n - 1), START);
      RunMore(EMPTY_DB, OverAndOver(n - 1) + [START], SayYes(n - 1));
      StartDealsTheDish(Reached(OverAndOver(n - 1)), n - 1);
      YesKeepsTheDish(n - 1);
    }
  }

  lemma {:induction false} UpTo(n: nat) returns (s: set<nat>)
    ensures (forall k: nat :: k in s <==> k < n) && |s| == n
  {
    if n == 0 {
      s := {};
    } else {
      s := UpTo(n - 1);
      s := s + {n - 1};
    }
  }

  lemma KeptIsMany(n: nat)
    ensures |Kept(KeptOptions(n), ShutBatches(n), CODE, Dinner)| == n
  {
    hide KeptOptions, ShutBatches;
    var s := UpTo(n);
    assert Kept(KeptOptions(n), ShutBatches(n), CODE, Dinner) == s;
  }

  /** Starting over has no bound: a session that wants one dinner can be made to
      keep any number, by pressing start between its batches. It is offered the
      same dish each time. */
  lemma StartingOverIsUnbounded(n: nat)
    requires n >= 2
    ensures var db := Reached(OverAndOver(n));
            && CODE in db.sessions && db.sessions[CODE].targets == map[Dinner := 1]
            && |Kept(db.batchItems, db.batches, CODE, Dinner)| == n
            && !NoReoffer(db.batches, db.batchItems, CODE)
  {
    ReachKeptTimes(n);
    KeptIsMany(n);
    var db := Reached(OverAndOver(n));
    assert InSession(db.batchItems, db.batches, CODE, 0) && InSession(db.batchItems, db.batches, CODE, 1);
    assert db.batchItems[0].item == db.batchItems[1].item;
  }

  // ------------------------------------------------------------ finishing with an open batch

  const BEN := Person(CODE, None, "Ben")

  const CAI := Person(CODE, None, "Cai")

  const CROWD := map[0 := HOST, 1 := BEN, 2 := CAI]

  function JoinAs(name: string): Action {
    Join(CODE, None, name, 0)
  }

  /** Three at the table, two of whom have said yes to the one dish dealt. */
  const SPLIT :=
    DealtAgain(0).(people := CROWD, nextPerson := 3, responses := map[Ballot(0, 0) := Yes, Ballot(0, 1) := Yes])

  const TWO_YES := [AddItem(0, "Soup", {Dinner}), CREATE] + [JoinAs("Ben")] + [JoinAs("Cai")] + [START] + [SayYes(0)]
                   + [CastVote(CODE, Some(1), None, 0, "yes", 0)]

  lemma TwoJoin()
    ensures var ben := Step(LOBBY, JoinAs("Ben")).0;
            ben == LOBBY.(people := map[0 := HOST, 1 := BEN], nextPerson := 2)
            && Step(ben, JoinAs("Cai")).0 == LOBBY.(people := CROWD, nextPerson := 3)
  {
    var ben := LOBBY.(people := map[0 := HOST, 1 := BEN], nextPerson := 2);
    assert LOBBY.people[1 := BEN] == ben.people;
    assert LOBBY.activity[CODE := 0] == LOBBY.activity;
    assert JoinSession(LOBBY, CODE, None, "Ben", 0).0 == ben;
    assert ben.people[2 := CAI] == CROWD;
    assert JoinSession(ben, CODE, None, "Cai", 0).0 == LOBBY.(people := CROWD, nextPerson := 3);
  }

  lemma StillReady(db: Db, people: map<PersonId, Person>, nextPerson: nat, n: nat)
    requires Ready(db, n)
    ensures Ready(db.(people := people, nextPerson := nextPerson), n)
  {
    hide ShutBatches, KeptOptions;
  }

  lemma CrowdStarts()
    ensures Step(LOBBY.(people := CROWD, nextPerson := 3), START).0 == DealtAgain(0).(people := CROWD, nextPerson := 3)
  {
    var db := LOBBY.(people := CROWD, nextPerson := 3);
    LobbyReady();
    StillReady(LOBBY, CROWD, 3, 0);
    hide Step, StartVoting, ShutBatches, KeptOptions, Ready;
    StartDealsOn(db, 0);
    StartIsStep(db);
    hide WithRound;
    CrowdRound();
  }

  lemma CrowdRound()
    ensures var db := LOBBY.(people := CROWD, nextPerson := 3);
            WithRound(db, 0).(sessions := db.sessions[CODE := Table(Voting)], activity := db.activity[CODE := 0])
            == DealtAgain(0).(people := CROWD, nextPerson := 3)
  {
    LobbyIsEmpty();
    hide ShutBatches, KeptOptions;
    assert LOBBY.sessions[CODE := Table(Voting)] == map[CODE := Table(Voting)];
    assert LOBBY.activity[CODE := 0] == map[CODE := 0];
  }

  /** A vote that leaves the third voter's answer out closes nothing. */
  lemma YesOfTwo(responses: map<Ballot, Choice>, p: PersonId)
    requires p < 2 && Ballot(0, p) !in responses && Ballot(0, 2) !in responses
    ensures var db := DealtAgain(0).(people := CROWD, nextPerson := 3, responses := responses);
            Vote(db, CODE, Some(p), None, 0, "yes", 0).0 == db.(responses := responses[Ballot(0, p) := Yes])
  {
    var db := DealtAgain(0).(people := CROWD, nextPerson := 3, responses := responses);
    LobbyIsEmpty();
    hide ShutBatches, KeptOptions, CloseRound, EverybodyFinished;
    var cast := db.(responses := responses[Ballot(0, p) := Yes]);
    EverybodyFinishedMeans(cast, CODE, 0);
    assert 2 in Roster(cast.people, CODE) && 0 in ItemsOf(cast.batchItems, 0) && Ballot(0, 2) !in cast.responses;
    VoteCounts(db, CODE, 0, Cast(p, Some(p), None, 0, Yes, 0));
    hide Vote;
    assert map[CODE := 0][CODE := 0] == map[CODE := 0];
  }

  lemma ReachSplit()
    ensures Reached(TWO_YES) == SPLIT
  {
    var lobby := [AddItem(0, "Soup", {Dinner}), CREATE];
    ReachLobby();
    TwoJoin();
    CrowdStarts();
    YesOfTwo(map[], 0);
    YesOfTwo(map[Ballot(0, 0) := Yes], 1);
    var db := DealtAgain(0).(people := CROWD, nextPerson := 3);
    VoteIsStep(db, 0);
    SecondVoteIsStep(db.(responses := map[Ballot(0, 0) := Yes]));
    hide Step, Run, Vote, DealtAgain;
    RunMore(EMPTY_DB, lobby, JoinAs("Ben"));
    RunMore(EMPTY_DB, lobby + [JoinAs("Ben")], JoinAs("Cai"));
    RunMore(EMPTY_DB, lobby + [JoinAs("Ben")] + [JoinAs("Cai")], START);
    RunMore(EMPTY_DB, lobby + [JoinAs("Ben")] + [JoinAs("Cai")] + [START], SayYes(0));
    RunMore(EMPTY_DB, lobby + [JoinAs("Ben")] + [JoinAs("Cai")] + [START] + [SayYes(0)],
            CastVote(CODE, Some(1), None, 0, "yes", 0));
  }

  lemma SecondVoteIsStep(db: Db)
    ensures Step(db, CastVote(CODE, Some(1), None, 0, "yes", 0)) == Vote(db, CODE, Some(1), None, 0, "yes", 0)
  {
    hide Vote;
  }

  lemma SplitHasMajority()
    ensures 0 in MajorityOptions(SPLIT, CODE, 0) && OpenBatches(SPLIT.batches, CODE) == {0}
    ensures HostGate(SPLIT, CODE, Some(0), 0) == Admitted(SPLIT)
  {
    LobbyIsEmpty();
    hide ShutBatches, KeptOptions;
    assert Roster(SPLIT.people, CODE) == {0, 1, 2};
    assert YesVoters(SPLIT.responses, 0) == {0, 1} by {
      assert Ballot(0, 0) in SPLIT.responses && Ballot(0, 1) in SPLIT.responses;
    }
  }

  /** Finishing closes the open batch, and its majority item is never decided:
      the completed session keeps an option without an outcome. */
  lemma FinishCanLeaveUndecided()
    ensures var after := FinishSession(Reached(TWO_YES), CODE, Some(0), 0).0;
            && CODE in after.sessions && after.sessions[CODE].status == Complete
            && 0 in Undecided(after.batchItems, after.batches, CODE)
  {
    hide Refs, Targets, Rosters, Rounds, Newest, Sizes, Sourced;
    hide DealOrder, Reported, Tallies, Ballots, Counters, NoneOverdue;
    ReachSplit();
    SplitHasMajority();
    ReachedKeeps(TWO_YES);
    FinishLeavesUndecided(SPLIT, CODE, Some(0), 0);
    FinishCompletes(SPLIT);
    hide FinishSession, HostGate, MajorityOptions;
  }

  lemma FinishCompletes(db: Db)
    requires HostGate(db, CODE, Some(0), 0).Admitted?
    ensures var after := FinishSession(db, CODE, Some(0), 0).0;
            CODE in after.sessions && after.sessions[CODE].status == Complete
  {
    hide HostGate, CloseRound, Undecided;
    var open := OpenBatch(db.batches, CODE);
    if open.Some? {
      CloseSpares(db, CODE, open.value);
    }
  }

  // ------------------------------------------------------------ a quiet poll behind the times

  const CLOSE := Close(CODE, Some(0), 0)
  const NEXT := Next(CODE, Some(0), 0)
  const ADD_STEW := AddItem(0, "Stew", {Dinner})

  /** The dish missed: nobody voted, the host closed. */
  const MISSED :=
    KeptTimes(1).(items := map[0 := Dish(1, 0)], batchItems := map[0 := BatchItem(0, 0, 0, 0, 1, Some(NotKept))])

  function Stew(offered: nat, kept: nat): Item {
    Item(0, "Stew", {Dinner}, false, offered, kept)
  }

  const STOCKED := MISSED.(items := map[0 := Dish(1, 0), 1 := Stew(0, 0)], nextItem := 2)

  const STEW_DEALT := STOCKED.(batches := ShutBatches(1)[1 := Batch(CODE, 2, Dinner, true)], nextBatch := 2,
                               batchItems := STOCKED.batchItems[1 := BatchItem(1, 1, 0, 0, 0, None)],
                               nextBatchItem := 2)

  const STEW_KEPT := STEW_DEALT.(items := map[0 := Dish(1, 0), 1 := Stew(1, 1)], batches := ShutBatches(2),
                                 batchItems := STOCKED.batchItems[1 := BatchItem(1, 1, 0, 1, 0, Some(KeptUnanimous))])

  lemma NobodyVoted()
    ensures CloseRound(DealtAgain(0), CODE, 0) == MISSED
  {
    var db := DealtAgain(0);
    LobbyIsEmpty();
    OneMoreShut(0);
    hide ShutBatches, KeptOptions;
    assert Roster(db.people, CODE) == {0};
    assert ItemsOf(db.batchItems, 0) == {0};
    assert YesVoters(db.responses, 0) == {};
    OneOptionCloses(db, 0, 0, 0, 1);
    hide CloseRound, ShutTable, ItemsOf, Roster, YesVoters;
    assert Others(db.responses, 0) == map[];
  }

  /** The host closes batch `n` by hand. */
  lemma HostCloses(db: Db, n: nat)
    requires n in db.batches && db.batches[n] == Batch(CODE, n + 1, Dinner, true)
    requires db.batches == ShutBatches(n)[n := Batch(CODE, n + 1, Dinner, true)]
    requires db.sessions == map[CODE := Table(Voting)] && db.activity == map[CODE := 0]
    ensures Step(db, CLOSE).0 == CloseRound(db, CODE, n)
  {
    hide ShutBatches, CloseRound;
    assert n in OpenBatches(db.batches, CODE);
    assert OpenBatch(db.batches, CODE) == Some(n);
    CloseSpares(db, CODE, n);
    CloseKeepsTime(db, CODE, n);
    assert CloseByHand(db, CODE, Some(0), 0).0 == Touch(CloseRound(db, CODE, n), CODE, 0);
    assert map[CODE := 0][CODE := 0] == map[CODE := 0];
  }

  lemma CloseMisses()
    ensures Step(DealtAgain(0), CLOSE).0 == MISSED
  {
    NobodyVoted();
    hide Step, CloseRound, ShutBatches;
    HostCloses(DealtAgain(0), 0);
  }

  lemma TwoOfOne(chosen: seq<ItemId>)
    requires |chosen| > 1 && forall k | 0 <= k < |chosen| :: chosen[k] == 1
    ensures !NoRepeats(chosen)
  {
    assert chosen[0] == chosen[1];
  }

  lemma OnlyOne(chosen: seq<ItemId>)
    requires NoRepeats(chosen) && chosen != [] && forall i | i in chosen :: i == 1
    ensures chosen == [1]
  {
    forall k | 0 <= k < |chosen| ensures chosen[k] == 1 {
      assert chosen[k] in chosen;
    }
    if |chosen| > 1 {
      TwoOfOne(chosen);
    }
  }

  lemma StewIsDealt()
    ensures Offered(STOCKED.batchItems, STOCKED.batches, CODE) == {0}
    ensures AssembleBatch(PoolOf(STOCKED.items, 2, STOCKED.sessions[CODE], Dinner), {0}) == [1]
  {
    var db := STOCKED;
    assert InSession(db.batchItems, db.batches, CODE, 0);
    PoolIsEligible(db.items, 2, db.sessions[CODE], Dinner);
    var pool := PoolOf(db.items, 2, db.sessions[CODE], Dinner);
    AssembleBatchDeals(pool, {0}, BATCH_SIZE);
    assert 1 in pool;
    hide AssembleBatch, PoolOf;
    OnlyOne(AssembleBatch(pool, {0}));
  }

  lemma OnlyStewIsLeft()
    ensures NextBatchAssembly(STOCKED, CODE) == (Some(Dinner), [1])
  {
    var db := STOCKED;
    StewIsDealt();
    assert Kept(db.batchItems, db.batches, CODE, Dinner) == {};
    hide AssembleBatch, PoolOf, Offered, Kept;
    assert ProgressRow(db, CODE, Dinner).remaining == 1;
    assert NextBatchAssembly(db, CODE, TRACK_ORDER[2..]) == (Some(Dinner), [1]);
    assert NextBatchAssembly(db, CODE, TRACK_ORDER[1..]) == (Some(Dinner), [1]);
  }

  lemma StewRound()
    ensures OpenRound(STOCKED, CODE, Dinner, [1]) == STEW_DEALT
  {
    SeqAfter(1);
    assert NewOptions(1, 1, [1]) == map[1 := BatchItem(1, 1, 0, 0, 0, None)];
    hide ShutBatches, NextSeq, SeqsOf, NewOptions;
    assert STOCKED.batchItems + map[1 := BatchItem(1, 1, 0, 0, 0, None)] == STEW_DEALT.batchItems;
  }

  lemma NothingUndecided()
    ensures PassAll(STOCKED, Undecided(STOCKED.batchItems, STOCKED.batches, CODE)) == STOCKED
  {
    assert Undecided(STOCKED.batchItems, STOCKED.batches, CODE) == {};
    assert PassAll(STOCKED, {}).batchItems == STOCKED.batchItems;
  }

  lemma NextDealsStew()
    ensures NextBatch(STOCKED, CODE, Some(0), 0).0 == STEW_DEALT
  {
    OnlyStewIsLeft();
    NoneShutOpen(1);
    StewRound();
    NothingUndecided();
    assert HostGate(STOCKED, CODE, Some(0), 0) == Admitted(STOCKED);
    hide HostGate, NextBatchAssembly, ShutBatches, OpenRound, Undecided, PassAll;
    assert map[CODE := 0][CODE := 0] == map[CODE := 0];
  }

  lemma StewAlone()
    ensures Roster(STEW_DEALT.people, CODE) == {0} && ItemsOf(STEW_DEALT.batchItems, 1) == {1}
  {
    hide ShutBatches;
  }

  lemma StewYes()
    ensures var cast := STEW_DEALT.(responses := map[Ballot(1, 0) := Yes]);
            EverybodyFinished(cast, CODE, 1) && CloseRound(cast, CODE, 1) == STEW_KEPT
  {
    var cast := STEW_DEALT.(responses := map[Ballot(1, 0) := Yes]);
    OneMoreShut(1);
    StewAlone();
    OneYes(1);
    hide ShutBatches, EverybodyFinished;
    hide ItemsOf, Roster, YesVoters, ShutTable;
    HostAnswered(cast, 1);
    OneOptionCloses(cast, 1, 1, 1, 1);
    hide CloseRound;
    assert Others(cast.responses, 1) == map[];
  }

  lemma YesKeepsStew()
    ensures Vote(STEW_DEALT, CODE, Some(0), None, 1, "yes", 0).0 == STEW_KEPT
  {
    hide ShutBatches, CloseRound, EverybodyFinished;
    StewYes();
    VoteCounts(STEW_DEALT, CODE, 1, Cast(0, Some(0), None, 1, Yes, 0));
    hide Vote;
    assert map[CODE := 0][CODE := 0] == map[CODE := 0];
  }

  lemma BehindIsStep(db: Db)
    ensures Step(db, NEXT) == NextBatch(db, CODE, Some(0), 0)
    ensures Step(db, ADD_STEW).0 == db.(items := db.items[db.nextItem := Stew(0, 0)], nextItem := db.nextItem + 1)
  {
    hide NextBatch;
  }

  const TO_RESULTS := [AddItem(0, "Soup", {Dinner}), CREATE] + [START] + [CLOSE]

  const BEHIND := [ADD_STEW] + [NEXT] + [SayYes(1)]

  lemma ReachMissed()
    ensures Reached(TO_RESULTS) == MISSED
  {
    var lobby := [AddItem(0, "Soup", {Dinner}), CREATE];
    ReachLobby();
    StartDealsTheDish(LOBBY, 0);
    CloseMisses();
    hide Step, Run;
    RunMore(EMPTY_DB, lobby, START);
    RunMore(EMPTY_DB, lobby + [START], CLOSE);
  }

  lemma ReachKeptBehind()
    ensures Run(MISSED, BEHIND) == STEW_KEPT
  {
    BehindIsStep(MISSED);
    BehindIsStep(STOCKED);
    NextDealsStew();
    VoteIsStep(STEW_DEALT, 1);
    YesKeepsStew();
    assert MISSED.items[1 := Stew(0, 0)] == STOCKED.items;
    assert Run(MISSED, []) == MISSED;
    hide Step, Run, NextBatch, Vote, ShutBatches;
    RunMore(MISSED, [], ADD_STEW);
    assert [] + [ADD_STEW] == [ADD_STEW];
    RunMore(MISSED, [ADD_STEW], NEXT);
    RunMore(MISSED, [ADD_STEW] + [NEXT], SayYes(1));
  }

  /** A results page stays quiet although a later batch has come, gone and kept
      a dish the page does not show. */
  lemma QuietYetChanged()
    ensures var a, b := Reached(TO_RESULTS), Run(Reached(TO_RESULTS), BEHIND);
            && OnScreen(a, CODE, 0) && CODE in b.sessions
            && ResultsState(b, CODE, 0, Some(PendingCount(a, CODE, 0)), 0).1 == Quiet
            && BatchReport(b, CODE, 0) != BatchReport(a, CODE, 0)
            && ScreenOf(b, CODE) != ScreenOf(a, CODE)
  {
    ReachMissed();
    ReachKeptBehind();
    PollIsQuiet(STEW_KEPT, 2);
    NoneWaits(MISSED);
    TwoScreens(STEW_KEPT);
    StewIsKept();
    hide Run, Step, ShutBatches, OnScreen, ResultsState, PendingCount, KeptRows, ScreenOf;
  }

  lemma StewIsKept()
    ensures KeptRows(STEW_KEPT, CODE) != KeptRows(MISSED, CODE)
  {
    hide ShutBatches;
    assert 1 in KeptRows(STEW_KEPT, CODE) && 1 !in KeptRows(MISSED, CODE);
  }

  /** With nothing open and nothing undecided the first page's poll is quiet. */
  lemma PollIsQuiet(db: Db, n: nat)
    requires db.batches == ShutBatches(n) && db.sessions == map[CODE := Table(Voting)] && db.activity == map[CODE := 0]
    requires forall x | x in db.batchItems :: db.batchItems[x].outcome.Some?
    ensures ResultsState(db, CODE, 0, Some(0), 0).1 == Quiet
  {
    NoneShutOpen(n);
    NoneWaits(db);
    hide ShutBatches, PendingCount;
  }

  /** The first results page, and the second once batch 1 has closed. */
  lemma TwoScreens(later: Db)
    requires later.batches == ShutBatches(2) && CODE in later.sessions && later.sessions[CODE] == Table(Voting)
    ensures OnScreen(MISSED, CODE, 0) && OnScreen(later, CODE, 1)
    ensures ScreenOf(later, CODE) != ScreenOf(MISSED, CODE)
  {
    NoneShutOpen(2);
    hide ShutBatches, ScreenOf, ResultsPage;
    assert 1 in BatchesOf(later.batches, CODE);
    FirstScreen(MISSED);
    ScreenShows(later, CODE, 1);
  }

  // ------------------------------------------------------------ a page gone behind a quiet poll

  /** The stew missed as well. */
  const STEW_MISSED := STEW_DEALT.(items := map[0 := Dish(1, 0), 1 := Stew(1, 0)], batches := ShutBatches(2),
                                   batchItems := STOCKED.batchItems[1 := BatchItem(1, 1, 0, 0, 1, Some(NotKept))])

  const GONE := [ADD_STEW] + [NEXT] + [CLOSE]

  lemma StewNotWanted()
    ensures CloseRound(STEW_DEALT, CODE, 1) == STEW_MISSED
  {
    OneMoreShut(1);
    StewAlone();
    assert YesVoters(STEW_DEALT.responses, 1) == {};
    hide ShutBatches;
    OneOptionCloses(STEW_DEALT, 1, 1, 0, 1);
    hide CloseRound, ShutTable, ItemsOf, Roster, YesVoters;
    assert Others(STEW_DEALT.responses, 1) == map[];
  }

  lemma ReachGone()
    ensures Run(MISSED, GONE) == STEW_MISSED
  {
    BehindIsStep(MISSED);
    BehindIsStep(STOCKED);
    NextDealsStew();
    StewNotWanted();
    HostCloses(STEW_DEALT, 1);
    assert MISSED.items[1 := Stew(0, 0)] == STOCKED.items;
    RunNothing(MISSED);
    hide Step, Run, NextBatch, CloseRound, ShutBatches;
    RunMore(MISSED, [], ADD_STEW);
    assert [] + [ADD_STEW] == [ADD_STEW];
    RunMore(MISSED, [ADD_STEW], NEXT);
    RunMore(MISSED, [ADD_STEW] + [NEXT], CLOSE);
  }

  /** A results page stays quiet, and what it reports is still true, although the
      session page has moved on to the results of the next batch. */
  lemma QuietYetGone()
    ensures var a, b := Reached(TO_RESULTS), Run(Reached(TO_RESULTS), GONE);
            && OnScreen(a, CODE, 0) && OnScreen(b, CODE, 1)
            && ResultsState(b, CODE, 0, Some(PendingCount(a, CODE, 0)), 0).1 == Quiet
            && NoKeepsAfter(b, CODE, 0) && NoLateKeeps(a, b, CODE, 0)
            && ScreenOf(b, CODE) != ScreenOf(a, CODE)
  {
    ReachMissed();
    ReachGone();
    PollIsQuiet(STEW_MISSED, 2);
    NoneWaits(MISSED);
    TwoScreens(STEW_MISSED);
    hide Run, Step, ShutBatches, OnScreen, ResultsState, PendingCount, ScreenOf;
  }

  // ------------------------------------------------------------ the library edited under a quiet poll

  lemma StockedBehind()
    ensures Run(MISSED, [ADD_STEW]) == STOCKED
  {
    BehindIsStep(MISSED);
    assert MISSED.items[1 := Stew(0, 0)] == STOCKED.items;
    RunNothing(MISSED);
    hide Step, Run;
    RunMore(MISSED, [], ADD_STEW);
    assert [] + [ADD_STEW] == [ADD_STEW];
  }

  lemma NothingLeft()
    ensures NextBatchAssembly(MISSED, CODE).0.None?
  {
    assert InSession(MISSED.batchItems, MISSED.batches, CODE, 0);
    assert 0 in Offered(MISSED.batchItems, MISSED.batches, CODE);
    NothingToDealMeans(MISSED, CODE);
    hide Offered, NextBatchAssembly, Kept, ShutBatches;
  }

  /** A results page stays quiet, its batch still the latest and nothing left
      undecided, although the host could now deal a dish just added. */
  lemma QuietYetStocked()
    ensures var a, b := Reached(TO_RESULTS), Run(Reached(TO_RESULTS), [ADD_STEW]);
            && OnScreen(a, CODE, 0) && OnScreen(b, CODE, 0)
            && ResultsState(b, CODE, 0, Some(PendingCount(a, CODE, 0)), 0).1 == Quiet
            && Undecided(a.batchItems, a.batches, CODE) == {}
            && !ResultsPage(a, CODE, 0).nextAvailable && ResultsPage(b, CODE, 0).nextAvailable
            && ScreenOf(b, CODE) != ScreenOf(a, CODE)
  {
    ReachMissed();
    StockedBehind();
    NothingLeft();
    OnlyStewIsLeft();
    PollIsQuiet(STOCKED, 1);
    NoneWaits(MISSED);
    FirstScreen(MISSED);
    FirstScreen(STOCKED);
    hide Run, Step, NextBatchAssembly, ShutBatches, OnScreen, ResultsState, PendingCount, ScreenOf, BatchReport, Lines;
  }

  lemma FirstScreen(db: Db)
    requires db.batches == ShutBatches(1) && CODE in db.sessions && db.sessions[CODE] == Table(Voting)
    ensures OnScreen(db, CODE, 0) && ScreenOf(db, CODE) == ResultsScreen(0, ResultsPage(db, CODE, 0))
  {
    NoneShutOpen(1);
    hide ShutBatches, ScreenOf, ResultsPage;
    ScreenShows(db, CODE, 0);
  }

  const RENAME := EditItem(0, "Broth", {Dinner})

  const RENAMED := MISSED.(items := map[0 := Item(0, "Broth", {Dinner}, false, 1, 0)])

  lemma RenamedBehind()
    ensures Run(MISSED, [RENAME]) == RENAMED
  {
    RunNothing(MISSED);
    RunMore(MISSED, [], RENAME);
    assert [] + [RENAME] == [RENAME];
    hide Run;
    assert MISSED.items[0 := Item(0, "Broth", {Dinner}, false, 1, 0)] == RENAMED.items;
  }

  /** Nor does it notice that a dish it lists has been renamed. */
  lemma QuietYetRenamed()
    ensures var a, b := Reached(TO_RESULTS), Run(Reached(TO_RESULTS), [RENAME]);
            && OnScreen(a, CODE, 0) && OnScreen(b, CODE, 0)
            && ResultsState(b, CODE, 0, Some(PendingCount(a, CODE, 0)), 0).1 == Quiet
            && ScreenOf(b, CODE) != ScreenOf(a, CODE)
  {
    ReachMissed();
    RenamedBehind();
    PollIsQuiet(RENAMED, 1);
    NoneWaits(MISSED);
    FirstScreen(MISSED);
    FirstScreen(RENAMED);
    SoupIsBroth();
    hide Run, Step, NextBatchAssembly, ShutBatches, OnScreen, ResultsState, PendingCount, ScreenOf, BatchReport, Lines;
  }

  lemma SoupIsBroth()
    ensures Lines(MISSED, CODE, 0) != Lines(RENAMED, CODE, 0)
  {
    hide ShutBatches;
    assert Lines(MISSED, CODE, 0)[0].name == "Soup" && Lines(RENAMED, CODE, 0)[0].name == "Broth";
  }

  lemma NoneWaits(db: Db)
    requires forall x | x in db.batchItems :: db.batchItems[x].outcome.Some?
    ensures PendingCount(db, CODE, 0) == 0
  {
    assert PendingSet(db, CODE, 0) == {};
    assert PendingCount(db, CODE, 0) == |PendingSet(db, CODE, 0)|;
  }

  // ------------------------------------------------------------ a keep behind a quiet poll

  /** The split table's dish closed by hand, awaiting its host. */
  const HALF := Db(map[0 := Dish(1, 0)], 1, map[CODE := Table(Voting)], map[CODE := 0], CROWD, 3,
                   ShutBatches(1), 1, map[0 := BatchItem(0, 0, 0, 2, 1, None)], 1, map[])

  /** Dealt again by a start pressed late, and closed with nobody voting. */
  const REJECTED := Db(map[0 := Dish(2, 0)], 1, map[CODE := Table(Voting)], map[CODE := 0], CROWD, 3, ShutBatches(2), 2,
                       map[0 := BatchItem(0, 0, 0, 2, 1, None), 1 := BatchItem(1, 0, 0, 0, 3, Some(NotKept))], 2, map[])

  const KEEP_FIRST := KeepOrPass(CODE, Some(0), 0, 0, true, 0)

  const KEPT_LATE := Db(map[0 := Dish(2, 1)], 1, map[CODE := Table(Voting)], map[CODE := 0], CROWD, 3,
                        ShutBatches(2), 2,
                        map[0 := BatchItem(0, 0, 0, 2, 1, Some(KeptHost)),
                            1 := BatchItem(1, 0, 0, 0, 3, Some(NotKept))], 2, map[])

  lemma SplitCloses()
    ensures CloseRound(SPLIT, CODE, 0) == HALF
  {
    LobbyIsEmpty();
    OneMoreShut(0);
    hide ShutBatches, KeptOptions;
    assert Roster(SPLIT.people, CODE) == {0, 1, 2};
    assert ItemsOf(SPLIT.batchItems, 0) == {0};
    assert YesVoters(SPLIT.responses, 0) == {0, 1} by {
      assert Ballot(0, 0) in SPLIT.responses && Ballot(0, 1) in SPLIT.responses;
    }
    OneOptionCloses(SPLIT, 0, 0, 2, 3);
    hide CloseRound, ShutTable, ItemsOf, Roster, YesVoters;
    assert Others(SPLIT.responses, 0) == map[];
  }

  lemma HalfReady()
    ensures Ready(HALF, 1)
  {
    hide ShutBatches;
  }

  lemma HalfStartsOver()
    ensures Step(HALF, START).0 == WithRound(HALF, 1)
  {
    HalfReady();
    hide Step, StartVoting, ShutBatches, Ready;
    StartDealsOn(HALF, 1);
    StartIsStep(HALF);
    assert HALF.sessions[CODE := Table(Voting)] == HALF.sessions;
    assert HALF.activity[CODE := 0] == HALF.activity;
  }

  lemma LateRound()
    ensures Roster(HALF.people, CODE) == {0, 1, 2} && YesVoters(HALF.responses, 1) == {}
    ensures ItemsOf(WithRound(HALF, 1).batchItems, 1) == {1}
  {
    hide ShutBatches;
  }

  lemma NobodyWants()
    ensures CloseRound(WithRound(HALF, 1), CODE, 1) == REJECTED
  {
    var db := WithRound(HALF, 1);
    OneMoreShut(1);
    LateRound();
    hide ShutBatches;
    OneOptionCloses(db, 1, 1, 0, 3);
    hide CloseRound, ShutTable, ItemsOf, Roster, YesVoters;
    assert Others(db.responses, 1) == map[];
  }

  lemma LateKeep()
    ensures Step(REJECTED, KEEP_FIRST).0 == KEPT_LATE
  {
    hide ShutBatches;
    assert HostGate(REJECTED, CODE, Some(0), 0) == Admitted(REJECTED);
    assert WriteDecision(REJECTED, 0, true) == KEPT_LATE;
    assert map[CODE := 0][CODE := 0] == map[CODE := 0];
  }

  const TO_REJECTED := TWO_YES + [CLOSE] + [START] + [CLOSE]

  lemma ReachRejected()
    ensures Reached(TO_REJECTED) == REJECTED
  {
    ReachSplit();
    SplitCloses();
    HalfStartsOver();
    NobodyWants();
    HostCloses(SPLIT, 0);
    HostCloses(WithRound(HALF, 1), 1);
    hide Step, Run, CloseRound, WithRound;
    RunMore(EMPTY_DB, TWO_YES, CLOSE);
    RunMore(EMPTY_DB, TWO_YES + [CLOSE], START);
    RunMore(EMPTY_DB, TWO_YES + [CLOSE] + [START], CLOSE);
  }

  /** A results page stays quiet, its batch still the latest, although the host
      has kept a dish of an earlier batch, which a start over had left undecided. */
  lemma QuietYetKept()
    ensures var a, b := Reached(TO_REJECTED), Run(Reached(TO_REJECTED), [KEEP_FIRST]);
            && OnScreen(a, CODE, 1) && CODE in b.sessions
            && ResultsState(b, CODE, 1, Some(PendingCount(a, CODE, 1)), 0).1 == Quiet
            && Latest(b, CODE, 1)
            && BatchReport(b, CODE, 1) != BatchReport(a, CODE, 1)
            && ScreenOf(b, CODE) != ScreenOf(a, CODE)
  {
    ReachRejected();
    LateKeep();
    RunNothing(REJECTED);
    RunMore(REJECTED, [], KEEP_FIRST);
    assert [] + [KEEP_FIRST] == [KEEP_FIRST];
    hide Run, Step;
    NoneShutOpen(2);
    hide ShutBatches;
    assert PendingSet(REJECTED, CODE, 1) == {} == PendingSet(KEPT_LATE, CODE, 1);
    assert PendingCount(REJECTED, CODE, 1) == |PendingSet(REJECTED, CODE, 1)|;
    assert PendingCount(KEPT_LATE, CODE, 1) == |PendingSet(KEPT_LATE, CODE, 1)|;
    assert 0 in KeptRows(KEPT_LATE, CODE) && 0 !in KeptRows(REJECTED, CODE);
    hide KeptRows, ScreenOf;
    assert 1 in BatchesOf(ShutBatches(2), CODE);
    ScreenShows(REJECTED, CODE, 1);
    ScreenShows(KEPT_LATE, CODE, 1);
  }
}
