/** Voting is confluent: with the roster and the open batch fixed, the order in
    which votes arrive, and any repeats among them, make no difference to the
    closed batch; and the batch closes by itself exactly with the vote that
    completes roster times options. */
module Confluence {
  import opened Prelude
  import opened SessionLogic
  import opened Tables
  import opened Handlers
  import opened Invariants
  import opened Runs

  /** One submitted vote: what the browser sent, and the participant it speaks for. */
  datatype Cast = Cast(voter: PersonId, cookie: Option<PersonId>, account: Option<Account>,
                       option: BatchItemId, choice: Choice, now: int)

  /** The state after a sequence of votes on one session. */
  ghost function CastAll(db: Db, code: Code, casts: seq<Cast>): Db
    decreases |casts|
  {
    if casts == [] then db
    else
      var before := CastAll(db, code, casts[..|casts| - 1]);
      var v := casts[|casts| - 1];
      Vote(before, code, v.cookie, v.account, v.option, Spelled(v.choice), v.now).0
  }

  /** Vote rows when only the first vote of each pair counts. */
  function FirstVotes(responses: map<Ballot, Choice>, casts: seq<Cast>): map<Ballot, Choice>
    decreases |casts|
  {
    if casts == [] then responses
    else
      var before := FirstVotes(responses, casts[..|casts| - 1]);
      var v := casts[|casts| - 1];
      if Ballot(v.option, v.voter) in before then before else before[Ballot(v.option, v.voter) := v.choice]
  }

  /** The setting: a voting session with an open batch. */
  ghost predicate Ballotting(db: Db, code: Code, b: BatchId) {
    code in db.sessions && db.sessions[code].status == Voting && b in OpenBatches(db.batches, code)
  }

  /** Votes by members, known by cookie or account, on options of the batch. */
  ghost predicate Proper(db: Db, code: Code, b: BatchId, casts: seq<Cast>) {
    forall n | 0 <= n < |casts| ::
      && ViewerParticipant(db.people, code, casts[n].cookie, casts[n].account) == Some(casts[n].voter)
      && casts[n].option in ItemsOf(db.batchItems, b)
  }

  /** No vote finds the session stale; each one accepted keeps it awake. */
  ghost predicate Awake(db: Db, code: Code, casts: seq<Cast>) {
    forall n | 0 <= n < |casts| ::
      var before := CastAll(db, code, casts[..n]);
      code in before.sessions && !Stale(before, code, casts[n].now)
  }

  ghost predicate Covered(db: Db, code: Code, b: BatchId, responses: map<Ballot, Choice>) {
    AllAnswered(responses, ItemsOf(db.batchItems, b), Roster(db.people, code))
  }

  /** What the votes must lead to, times aside. */
  ghost function Expected(db: Db, code: Code, b: BatchId, responses: map<Ballot, Choice>): Db
    requires b in db.batches
  {
    var voted := db.(responses := responses);
    if Covered(db, code, b, responses) then CloseRound(voted, code, b) else voted
  }

  lemma {:induction false} FirstVotesGrow(responses: map<Ballot, Choice>, casts: seq<Cast>)
    ensures forall k | k in responses ::
              k in FirstVotes(responses, casts) && FirstVotes(responses, casts)[k] == responses[k]
    decreases |casts|
  {
    if casts != [] {
      FirstVotesGrow(responses, casts[..|casts| - 1]);
    }
  }

  /** A vote on a session that is not stale, by a member, on its open batch. */
  lemma VoteCounts(db: Db, code: Code, b: BatchId, v: Cast)
    requires Newest(db.batches) && Ballotting(db, code, b)
    requires ViewerParticipant(db.people, code, v.cookie, v.account) == Some(v.voter)
    requires v.option in ItemsOf(db.batchItems, b)
    requires !Stale(db, code, v.now)
    ensures Vote(db, code, v.cookie, v.account, v.option, Spelled(v.choice), v.now)
            == (Touch(RecordVote(db, code, b, v.voter, v.option, v.choice), code, v.now), SeeSession)
  {
    OneOpenBatch(db, code, b);
  }

  /** A vote after the batch has closed changes nothing at all. */
  lemma VoteAfterClose(db: Db, code: Code, v: Cast)
    requires code in db.sessions && db.sessions[code].status == Voting
    requires OpenBatches(db.batches, code) == {} && !Stale(db, code, v.now)
    ensures Vote(db, code, v.cookie, v.account, v.option, Spelled(v.choice), v.now).0 == db
  {
  }

  lemma NotYetCovered(db: Db, code: Code, b: BatchId)
    requires NoneOverdue(db.sessions, db.people, db.batches, db.batchItems, db.responses)
    requires Ballotting(db, code, b)
    ensures !Covered(db, code, b, db.responses)
  {
  }

  lemma CloseIgnoresActivity(db: Db, code: Code, b: BatchId, activity: map<Code, int>)
    requires b in db.batches
    ensures CloseRound(db.(activity := activity), code, b) == CloseRound(db, code, b).(activity := activity)
  {
    hide ItemsOf, Roster, TallyTable, CountTable, ShutTable, DropBallots;
    if db.batches[b].open {
      var options := ItemsOf(db.batchItems, b);
      var tallied := TallyTable(db.batchItems, db.responses, options, |Roster(db.people, code)|);
      DropIgnoresActivity(db.(batchItems := tallied, items := CountTable(db.items, tallied, options),
                              batches := ShutTable(db.batches, b)),
                          options, activity);
    }
  }

  lemma DropIgnoresActivity(db: Db, options: set<BatchItemId>, activity: map<Code, int>)
    ensures DropBallots(db.(activity := activity), options) == DropBallots(db, options).(activity := activity)
  {
  }

  lemma RecordIsExpected(db: Db, code: Code, b: BatchId, before: Db, responses: map<Ballot, Choice>, v: Cast)
    requires b in db.batches && Roster(db.people, code) != {}
    requires before == db.(responses := responses, activity := before.activity) && !Covered(db, code, b, responses)
    ensures var k := Ballot(v.option, v.voter);
            var more := if k in responses then responses else responses[k := v.choice];
            RecordVote(before, code, b, v.voter, v.option, v.choice)
            == Expected(db, code, b, more).(activity := before.activity)
  {
    var k := Ballot(v.option, v.voter);
    if k !in responses {
      var voted := db.(responses := responses[k := v.choice]);
      EverybodyFinishedMeans(voted.(activity := before.activity), code, b);
      CloseIgnoresActivity(voted, code, b, before.activity);
      assert before.(responses := responses[k := v.choice]) == voted.(activity := before.activity);
    }
  }

  lemma CastOneMore(db: Db, code: Code, b: BatchId, before: Db, responses: map<Ballot, Choice>, v: Cast)
    requires Inv(db) && Ballotting(db, code, b)
    requires before == Expected(db, code, b, responses).(activity := before.activity)
    requires ViewerParticipant(db.people, code, v.cookie, v.account) == Some(v.voter)
    requires v.option in ItemsOf(db.batchItems, b)
    requires code in before.sessions && !Stale(before, code, v.now)
    ensures var k := Ballot(v.option, v.voter);
            var more := if k in responses then responses else responses[k := v.choice];
            var after := Vote(before, code, v.cookie, v.account, v.option, Spelled(v.choice), v.now).0;
            after == Expected(db, code, b, more).(activity := after.activity)
  {
    hide Refs, Targets, Rosters, Rounds, Newest, Sizes, Sourced;
    hide DealOrder, Reported, Tallies, Ballots, Counters, NoneOverdue;
    var k := Ballot(v.option, v.voter);
    if Covered(db, code, b, responses) {
      ClosedNoneOpen(db.(responses := responses), code, b);
      VoteAfterClose(before, code, v);
      assert k in responses;
    } else {
      VoteCounts(before, code, b, v);
      HostedRosterNonempty(db, code);
      RecordIsExpected(db, code, b, before, responses, v);
    }
  }

  lemma ShorterAwake(db: Db, code: Code, casts: seq<Cast>)
    requires Awake(db, code, casts) && casts != []
    ensures Awake(db, code, casts[..|casts| - 1])
    ensures var before := CastAll(db, code, casts[..|casts| - 1]);
            code in before.sessions && !Stale(before, code, casts[|casts| - 1].now)
  {
    hide CastAll, Stale;
    var init := casts[..|casts| - 1];
    forall n | 0 <= n < |init| ensures init[..n] == casts[..n] {
    }
  }

  /** The run of votes, step by step: the state is always the expected one but
      for its activity time. */
  lemma {:induction false} CastAllExpected(db: Db, code: Code, b: BatchId, casts: seq<Cast>)
    requires Inv(db) && Ballotting(db, code, b) && Proper(db, code, b, casts) && Awake(db, code, casts)
    ensures var after := CastAll(db, code, casts);
            after == Expected(db, code, b, FirstVotes(db.responses, casts)).(activity := after.activity)
    decreases |casts|
  {
    hide Refs, Targets, Rosters, Rounds, Newest, Sizes, Sourced;
    hide DealOrder, Reported, Tallies, Ballots, Counters, NoneOverdue;
    if casts == [] {
      NotYetCovered(db, code, b);
    } else {
      var init, v := casts[..|casts| - 1], casts[|casts| - 1];
      ShorterAwake(db, code, casts);
      CastAllExpected(db, code, b, init);
      CastOneMore(db, code, b, CastAll(db, code, init), FirstVotes(db.responses, init), v);
    }
  }

  /** Both sequences answer every pair, and agree on each pair's first vote. */
  ghost predicate SameFirstVotes(db: Db, code: Code, b: BatchId, one: seq<Cast>, two: seq<Cast>) {
    forall x, p | x in ItemsOf(db.batchItems, b) && p in Roster(db.people, code) ::
      && Ballot(x, p) in FirstVotes(db.responses, one) && Ballot(x, p) in FirstVotes(db.responses, two)
      && FirstVotes(db.responses, one)[Ballot(x, p)] == FirstVotes(db.responses, two)[Ballot(x, p)]
  }

  lemma {:induction false} OnlyProperVotes(db: Db, code: Code, b: BatchId, casts: seq<Cast>)
    requires Proper(db, code, b, casts)
    ensures forall k | k in FirstVotes(db.responses, casts) && k !in db.responses ::
              k.item in ItemsOf(db.batchItems, b) && k.voter in Roster(db.people, code)
    decreases |casts|
  {
    if casts != [] {
      OnlyProperVotes(db, code, b, casts[..|casts| - 1]);
    }
  }

  lemma SameTables(db: Db, code: Code, b: BatchId, one: seq<Cast>, two: seq<Cast>)
    requires Proper(db, code, b, one) && Proper(db, code, b, two)
    requires SameFirstVotes(db, code, b, one, two)
    ensures FirstVotes(db.responses, one) == FirstVotes(db.responses, two)
  {
    OnlyProperVotes(db, code, b, one);
    OnlyProperVotes(db, code, b, two);
    FirstVotesGrow(db.responses, one);
    FirstVotesGrow(db.responses, two);
    var first, second := FirstVotes(db.responses, one), FirstVotes(db.responses, two);
    forall k | k in first ensures k in second && second[k] == first[k] {
      assert k == Ballot(k.item, k.voter);
    }
    forall k | k in second ensures k in first {
      assert k == Ballot(k.item, k.voter);
    }
  }

  /** Confluence: in any reachable database, any two covering sequences that
      agree on first votes end in the same database, the batch closed, but for
      the activity time. */
  lemma VotingIsConfluent(actions: seq<Action>, code: Code, b: BatchId, one: seq<Cast>, two: seq<Cast>)
    ensures var db := Reached(actions);
            Ballotting(db, code, b) && Proper(db, code, b, one) && Proper(db, code, b, two)
            && Awake(db, code, one) && Awake(db, code, two) && SameFirstVotes(db, code, b, one, two) ==>
            var first, second := CastAll(db, code, one), CastAll(db, code, two);
            && first == second.(activity := first.activity)
            && b in first.batches && !first.batches[b].open
  {
    hide Refs, Targets, Rosters, Rounds, Newest, Sizes, Sourced;
    hide DealOrder, Reported, Tallies, Ballots, Counters, NoneOverdue;
    var db := Reached(actions);
    ReachedKeeps(actions);
    hide Awake;
    if Ballotting(db, code, b) && Proper(db, code, b, one) && Proper(db, code, b, two)
       && Awake(db, code, one) && Awake(db, code, two) && SameFirstVotes(db, code, b, one, two) {
      CastAllExpected(db, code, b, one);
      CastAllExpected(db, code, b, two);
      SameTables(db, code, b, one, two);
      assert Covered(db, code, b, FirstVotes(db.responses, one));
    }
  }

  /** A pair's first vote, told by position: the earliest cast of that pair. */
  lemma {:induction false} FirstVoteIsEarliest(responses: map<Ballot, Choice>, casts: seq<Cast>, k: Ballot)
    requires k !in responses
    ensures k in FirstVotes(responses, casts)
            <==> exists n :: 0 <= n < |casts| && k == Ballot(casts[n].option, casts[n].voter)
    ensures forall n | 0 <= n < |casts| && k == Ballot(casts[n].option, casts[n].voter)
                       && (forall m | 0 <= m < n :: k != Ballot(casts[m].option, casts[m].voter)) ::
              k in FirstVotes(responses, casts) && FirstVotes(responses, casts)[k] == casts[n].choice
    decreases |casts|
  {
    if casts != [] {
      var init := casts[..|casts| - 1];
      FirstVoteIsEarliest(responses, init, k);
      assert forall n | 0 <= n < |init| :: init[n] == casts[n];
    }
  }

  /** The automatic close: after any votes the batch is closed exactly when every
      member has answered every option, so it closes with the completing vote. */
  lemma ClosesExactlyWhenCovered(actions: seq<Action>, code: Code, b: BatchId, casts: seq<Cast>)
    ensures var db := Reached(actions);
            Ballotting(db, code, b) && Proper(db, code, b, casts) && Awake(db, code, casts) ==>
            var after := CastAll(db, code, casts);
            && b in after.batches
            && (!after.batches[b].open <==> Covered(db, code, b, FirstVotes(db.responses, casts)))
  {
    hide Refs, Targets, Rosters, Rounds, Newest, Sizes, Sourced;
    hide DealOrder, Reported, Tallies, Ballots, Counters, NoneOverdue;
    var db := Reached(actions);
    ReachedKeeps(actions);
    hide Awake;
    if Ballotting(db, code, b) && Proper(db, code, b, casts) && Awake(db, code, casts) {
      CastAllExpected(db, code, b, casts);
    }
  }
}
