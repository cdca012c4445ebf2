/** Sessions are isolated, both ways: what a request or poll that names a session
    answers depends on that session's own rows and its collection only, and what
    other sessions are asked leaves all of those rows alone. */
module Isolation {
  import opened Prelude
  import opened Tables
  import opened Pool
  import opened Handlers
  import opened Invariants
  import opened Runs
  import opened History
  import opened Endings
  import opened Lifecycle
  import opened Casting
  import opened Views

  /** Vote rows for options of the session. */
  function BallotsOf(db: Db, code: Code): map<Ballot, Choice> {
    map k | k in db.responses && InSession(db.batchItems, db.batches, code, k.item) :: db.responses[k]
  }

  /** Two databases with the same rows of one session. */
  ghost predicate SameSession(a: Db, b: Db, code: Code) {
    && SameAt(a.sessions, b.sessions, code) && SameAt(a.activity, b.activity, code)
    && Seats(a.people, code) == Seats(b.people, code)
    && RoundsRecord(a.batches, code) == RoundsRecord(b.batches, code)
    && OptionsRecord(a.batches, a.batchItems, code) == OptionsRecord(b.batches, b.batchItems, code)
    && BallotsOf(a, code) == BallotsOf(b, code)
  }

  /** And the same items in its collection. */
  ghost predicate SameShelves(a: Db, b: Db, code: Code) {
    code in a.sessions ==> SameShelf(a.items, b.items, a.sessions[code].collection)
  }

  // ------------------------------------------------------------ what the rows settle

  lemma SameRounds(a: Db, b: Db, code: Code)
    requires RoundsRecord(a.batches, code) == RoundsRecord(b.batches, code)
    ensures BatchesOf(a.batches, code) == BatchesOf(b.batches, code)
    ensures OpenBatches(a.batches, code) == OpenBatches(b.batches, code)
    ensures forall r | r in BatchesOf(a.batches, code) :: a.batches[r] == b.batches[r]
  {
    forall r
      ensures (r in a.batches && a.batches[r].session == code) <==> (r in b.batches && b.batches[r].session == code)
             ensures r in BatchesOf(a.batches, code) ==> a.batches[r] == b.batches[r]
    {
      assert r in RoundsRecord(a.batches, code) <==> r in RoundsRecord(b.batches, code);
      assert r in RoundsRecord(a.batches, code) ==>
          RoundsRecord(a.batches, code)[r] == RoundsRecord(b.batches, code)[r];
    }
  }

  lemma SameRows(a: Db, b: Db, code: Code)
    requires OptionsRecord(a.batches, a.batchItems, code) == OptionsRecord(b.batches, b.batchItems, code)
    ensures forall x :: InSession(a.batchItems, a.batches, code, x) <==> InSession(b.batchItems, b.batches, code, x)
    ensures forall x | InSession(a.batchItems, a.batches, code, x) ::
              x in b.batchItems && a.batchItems[x] == b.batchItems[x]
  {
    forall x ensures InSession(a.batchItems, a.batches, code, x) <==> InSession(b.batchItems, b.batches, code, x)
             ensures InSession(a.batchItems, a.batches, code, x) ==>
                     x in b.batchItems && a.batchItems[x] == b.batchItems[x]
    {
      assert x in OptionsRecord(a.batches, a.batchItems, code) <==> x in OptionsRecord(b.batches, b.batchItems, code);
      assert x in OptionsRecord(a.batches, a.batchItems, code) ==>
          OptionsRecord(a.batches, a.batchItems, code)[x] == OptionsRecord(b.batches, b.batchItems, code)[x];
    }
  }

  lemma SameSeated(a: Db, b: Db, code: Code)
    requires Seats(a.people, code) == Seats(b.people, code)
    ensures Roster(a.people, code) == Roster(b.people, code)
    ensures forall account :: RowsOf(a.people, code, account) == RowsOf(b.people, code, account)
    ensures forall p | p in Roster(a.people, code) :: a.people[p] == b.people[p]
  {
    forall p ensures p in Roster(a.people, code) <==> p in Roster(b.people, code)
             ensures p in Roster(a.people, code) ==> a.people[p] == b.people[p]
    {
      InSeats(a.people, p, code);
      InSeats(b.people, p, code);
    }
    forall account ensures RowsOf(a.people, code, account) == RowsOf(b.people, code, account) {
      forall p ensures p in RowsOf(a.people, code, account) <==> p in RowsOf(b.people, code, account) {
        assert p in Roster(a.people, code) <==> p in Roster(b.people, code);
      }
    }
  }

  lemma SameOpen(a: Db, b: Db, code: Code)
    requires Newest(a.batches) && Newest(b.batches) && RoundsRecord(a.batches, code) == RoundsRecord(b.batches, code)
    ensures OpenBatch(a.batches, code) == OpenBatch(b.batches, code)
  {
    SameRounds(a, b, code);
    if r :| r in OpenBatches(a.batches, code) {
      OneOpenBatch(a, code, r);
      OneOpenBatch(b, code, r);
    }
  }

  lemma SameViewer(a: Db, b: Db, code: Code, cookie: Option<PersonId>, account: Option<Account>)
    requires Seats(a.people, code) == Seats(b.people, code)
    ensures ViewerParticipant(a.people, code, cookie, account).Some?
            == ViewerParticipant(b.people, code, cookie, account).Some?
  {
    SameSeated(a, b, code);
    if cookie.Some? {
      assert cookie.value in Roster(a.people, code) <==> cookie.value in Roster(b.people, code);
    }
  }

  // ------------------------------------------------------------ expiry

  lemma SameStale(a: Db, b: Db, code: Code, now: int)
    requires SameSession(a, b, code) && code in a.sessions
    ensures Stale(a, code, now) == Stale(b, code, now)
  {
  }

  /** Expiring touches the two sessions' rows alike. */
  lemma SameExpiry(a: Db, b: Db, code: Code, now: int)
    requires SameSession(a, b, code) && code in a.sessions
    ensures SameSession(ExpireIfStale(a, code, now), ExpireIfStale(b, code, now), code)
  {
    SameStale(a, b, code, now);
    ExpirySpares(a, code, now);
    ExpirySpares(b, code, now);
    if Stale(a, code, now) {
      ExpiredSeats(a, code, now);
      ExpiredSeats(b, code, now);
      SameRounds(a, b, code);
      SameRows(a, b, code);
      ExpiredBallots(a, code, now);
      ExpiredBallots(b, code, now);
      ExpirySessions(a, code, now);
      ExpirySessions(b, code, now);
      SameClosedBallots(a, b, code);
      hide ExpireIfStale, Stale, RoundsRecord, OptionsRecord, Seats, BallotsOf, InSession, ClosedBallots;
    }
  }

  lemma ExpiredSeats(db: Db, code: Code, now: int)
    requires code in db.sessions && Stale(db, code, now)
    ensures Seats(ExpireIfStale(db, code, now).people, code) == map[]
    ensures ExpireIfStale(db, code, now).activity == db.activity
  {
  }

  function ClosedBallots(db: Db, code: Code): map<Ballot, Choice> {
    map k | k in BallotsOf(db, code) && k.item in db.batchItems
            && db.batchItems[k.item].batch !in OpenBatches(db.batches, code) ::
      BallotsOf(db, code)[k]
  }

  lemma ExpiredBallots(db: Db, code: Code, now: int)
    requires code in db.sessions && Stale(db, code, now)
    ensures BallotsOf(ExpireIfStale(db, code, now), code) == ClosedBallots(db, code)
  {
  }

  lemma SameClosedBallots(a: Db, b: Db, code: Code)
    requires SameSession(a, b, code)
    ensures ClosedBallots(a, code) == ClosedBallots(b, code)
  {
    SameRounds(a, b, code);
    SameRows(a, b, code);
    forall k ensures k in ClosedBallots(a, code) <==> k in ClosedBallots(b, code) {
      assert k in BallotsOf(a, code) <==> k in BallotsOf(b, code);
    }
  }

  // ------------------------------------------------------------ requests

  lemma SameFirstDeal(a: Db, b: Db, code: Code)
    requires Refs(a) && Refs(b) && SameAt(a.sessions, b.sessions, code) && SameShelves(a, b, code) && code in a.sessions
    ensures FirstDeal(a, code) == FirstDeal(b, code)
  {
    var s := a.sessions[code];
    if FirstTrack(s.targets).Some? {
      PoolSame(a.items, a.nextItem, b.items, b.nextItem, s, FirstTrack(s.targets).value);
    }
  }

  lemma SameGate(a: Db, b: Db, code: Code, account: Option<Account>, now: int)
    requires SameSession(a, b, code)
    ensures var ga, gb := HostGate(a, code, account, now), HostGate(b, code, account, now);
            ga.Admitted? == gb.Admitted? && (ga.Turned? ==> ga.reply == gb.reply)
  {
    if code in a.sessions {
      SameStale(a, b, code, now);
      ExpirySessions(a, code, now);
      ExpirySessions(b, code, now);
      hide ExpireIfStale, Stale;
    }
  }

  lemma SameStart(a: Db, b: Db, code: Code, account: Option<Account>, now: int)
    requires Inv(a) && Inv(b) && SameSession(a, b, code) && SameShelves(a, b, code)
    ensures StartVoting(a, code, account, now).1 == StartVoting(b, code, account, now).1
  {
    hide Targets, Rosters, Rounds, Newest, Sizes, Sourced, DealOrder, Reported, Tallies, Ballots, Counters, NoneOverdue;
    hide HostGate, StartAdmitted, FirstDeal, RoundsRecord, OptionsRecord, Seats, BallotsOf, SameShelves;
    SameGate(a, b, code, account, now);
    if HostGate(a, code, account, now).Admitted? {
      AdmittedIsLive(a, code, account, now);
      AdmittedIsLive(b, code, account, now);
      SameRounds(a, b, code);
      SameFirstDeal(a, b, code);
      StartStarts(a, code, account, now);
      StartStarts(b, code, account, now);
    }
  }

  lemma SameVote(a: Db, b: Db, code: Code, cookie: Option<PersonId>, account: Option<Account>, x: BatchItemId,
                 choice: string, now: int)
    requires Newest(a.batches) && Newest(b.batches) && SameSession(a, b, code)
    ensures Vote(a, code, cookie, account, x, choice, now).1 == Vote(b, code, cookie, account, x, choice, now).1
  {
    if code in a.sessions {
      VoteAnswers(a, code, cookie, account, x, choice, now);
      VoteAnswers(b, code, cookie, account, x, choice, now);
      SameExpiry(a, b, code, now);
      SameRounds(a, b, code);
      SameRows(a, b, code);
      var ca, cb := ExpireIfStale(a, code, now), ExpireIfStale(b, code, now);
      SameViewer(ca, cb, code, cookie, account);
      assert x in a.batchItems && a.batchItems[x].batch in OpenBatches(a.batches, code) ==>
          InSession(a.batchItems, a.batches, code, x);
      assert x in b.batchItems && b.batchItems[x].batch in OpenBatches(b.batches, code) ==>
          InSession(b.batchItems, b.batches, code, x);
      hide Vote, ExpireIfStale, ViewerParticipant, RoundsRecord, OptionsRecord, Seats, BallotsOf, InSession;
      hide OpenBatches;
    }
  }

  lemma SameJoin(a: Db, b: Db, code: Code, account: Option<Account>, name: string, now: int)
    requires SameSession(a, b, code)
    ensures JoinSession(a, code, account, name, now).1 == JoinSession(b, code, account, name, now).1
  {
    if code in a.sessions {
      SameExpiry(a, b, code, now);
      SameSeated(ExpireIfStale(a, code, now), ExpireIfStale(b, code, now), code);
      hide ExpireIfStale, RoundsRecord, OptionsRecord, Seats, BallotsOf;
    }
  }

  lemma SameDecide(a: Db, b: Db, code: Code, account: Option<Account>, round: BatchId, x: BatchItemId, keep: bool,
                   now: int)
    requires SameSession(a, b, code)
    ensures Decide(a, code, account, round, x, keep, now).1 == Decide(b, code, account, round, x, keep, now).1
  {
    SameGate(a, b, code, account, now);
    SameRounds(a, b, code);
    SameRows(a, b, code);
    assert round in BatchesOf(a.batches, code) <==> round in BatchesOf(b.batches, code);
    assert InSession(a.batchItems, a.batches, code, x) <==> InSession(b.batchItems, b.batches, code, x);
    hide HostGate, WriteDecision, RoundsRecord, OptionsRecord, Seats, BallotsOf;
  }

  lemma SameRemove(a: Db, b: Db, code: Code, account: Option<Account>, p: PersonId, now: int)
    requires SameSession(a, b, code)
    ensures RemoveParticipant(a, code, account, p, now).1 == RemoveParticipant(b, code, account, p, now).1
  {
    SameGate(a, b, code, account, now);
    SameSeated(a, b, code);
    if HostGate(a, code, account, now).Admitted? {
      AdmittedIsLive(a, code, account, now);
      AdmittedIsLive(b, code, account, now);
    }
    hide HostGate, RoundsRecord, OptionsRecord, Seats, BallotsOf;
  }

  lemma SameAnswer(a: Db, b: Db, x: Action, code: Code)
    requires Inv(a) && Inv(b) && Addresses(x, code) && SameSession(a, b, code) && SameShelves(a, b, code)
    ensures Step(a, x).1 == Step(b, x).1
  {
    hide Refs, Targets, Rosters, Rounds, Newest, Sizes, Sourced, DealOrder, Reported, Tallies, Ballots, Counters;
    hide NoneOverdue;
    hide SameShelves, JoinSession, StartVoting, Vote, Decide, RemoveParticipant, HostGate, ExpireIfStale;
    hide RoundsRecord, OptionsRecord, Seats, BallotsOf, CloseRound, Undecided, NextBatchAssembly, PassAll;
    match x
    case Join(_, account, name, now) => SameJoin(a, b, code, account, name, now);
    case Start(_, account, now) => SameStart(a, b, code, account, now);
    case CastVote(_, cookie, account, o, choice, now) => SameVote(a, b, code, cookie, account, o, choice, now);
    case Close(_, account, now) => SameGate(a, b, code, account, now);
    case KeepOrPass(_, account, r, o, keep, now) => SameDecide(a, b, code, account, r, o, keep, now);
    case Next(_, account, now) => SameGate(a, b, code, account, now);
    case Finish(_, account, now) => SameGate(a, b, code, account, now);
    case Remove(_, account, p, now) => SameRemove(a, b, code, account, p, now);
    case View(_, now) =>
  }

  /** In any two reachable databases, a request that names a session is answered
      by that session's rows and its collection alone. */
  lemma RequestsAreIsolated(one: seq<Action>, two: seq<Action>, x: Action, code: Code)
    requires Addresses(x, code)
    requires SameSession(Reached(one), Reached(two), code) && SameShelves(Reached(one), Reached(two), code)
    ensures Step(Reached(one), x).1 == Step(Reached(two), x).1
  {
    hide Inv, SameSession, SameShelves, Step, Run;
    ReachedKeeps(one);
    ReachedKeeps(two);
    SameAnswer(Reached(one), Reached(two), x, code);
  }

  // ------------------------------------------------------------ what other requests leave

  lemma SeatsElsewhere(db: Db, a: Action, code: Code)
    requires Inv(db) && code in db.sessions && !Addresses(a, code)
    ensures Seats(Step(db, a).0.people, code) == Seats(db.people, code)
  {
    hide Refs, Targets, Rounds, Newest, Sizes, Sourced, DealOrder, Reported, Tallies, Ballots, Counters, NoneOverdue;
    hide Step, RoundsRecord, OptionsRecord;
    RecordElsewhere(db, a, code);
    StepKeeps(db, a);
    if Live(db.sessions[code].status) {
      hide Seats;
      RosterChanges(db, a, code);
    } else {
      NoSeats(db, code);
      NoSeats(Step(db, a).0, code);
    }
  }

  lemma NoSeats(db: Db, code: Code)
    requires Rosters(db.sessions, db.people) && Over(db, code)
    ensures Seats(db.people, code) == map[]
  {
  }

  lemma BallotsElsewhere(db: Db, a: Action, code: Code)
    requires Refs(db) && code in db.sessions && !Addresses(a, code)
    ensures BallotsOf(Step(db, a).0, code) == BallotsOf(db, code)
  {
    hide Refs, Step;
    RecordElsewhere(db, a, code);
    SameRows(db, Step(db, a).0, code);
    StepVotes(db, a, code);
    hide SameRecord;
    CastsElsewhere(db, a, code);
    hide Casts, InSession;
    assert BallotsOf(Step(db, a).0, code).Keys == BallotsOf(db, code).Keys;
  }

  lemma CastsElsewhere(db: Db, a: Action, code: Code)
    requires !Addresses(a, code)
    ensures forall k, choice | Casts(db, a, k, choice) :: !InSession(db.batchItems, db.batches, code, k.item)
  {
    hide ViewerParticipant;
  }

  /** A request that does not name a session leaves every row of it as it was. */
  lemma StepElsewhere(db: Db, a: Action, code: Code)
    requires Inv(db) && code in db.sessions && !Addresses(a, code)
    ensures code in Step(db, a).0.sessions && SameSession(db, Step(db, a).0, code)
  {
    hide Refs, Targets, Rosters, Rounds, Newest, Sizes, Sourced, DealOrder, Reported, Tallies, Ballots, Counters;
    hide NoneOverdue;
    hide Step, RoundsRecord, OptionsRecord, Seats, BallotsOf;
    RecordElsewhere(db, a, code);
    SeatsElsewhere(db, a, code);
    BallotsElsewhere(db, a, code);
  }

  /** No request of the run names the session. */
  predicate NobodyAsks(actions: seq<Action>, code: Code) {
    forall n | 0 <= n < |actions| :: !Addresses(actions[n], code)
  }

  lemma {:induction false} RunElsewhere(db: Db, actions: seq<Action>, code: Code)
    requires Inv(db) && code in db.sessions && NobodyAsks(actions, code)
    ensures code in Run(db, actions).sessions && SameSession(db, Run(db, actions), code)
    decreases |actions|
  {
    hide Inv, Step, Run, SameSession;
    if actions == [] {
      RunNothing(db);
      SameSelf(db, code);
    } else {
      var init := actions[..|actions| - 1];
      RunElsewhere(db, init, code);
      RunKeeps(db, init);
      RunUnfolds(db, actions);
      StepElsewhere(Run(db, init), actions[|actions| - 1], code);
      SameSessionTransitive(db, Run(db, init), Run(db, actions), code);
    }
  }

  lemma SameSelf(db: Db, code: Code)
    ensures SameSession(db, db, code)
  {
  }

  lemma SameSessionTransitive(a: Db, b: Db, c: Db, code: Code)
    requires SameSession(a, b, code) && SameSession(b, c, code)
    ensures SameSession(a, c, code)
  {
    hide RoundsRecord, OptionsRecord, Seats, BallotsOf;
  }

  /** Whatever other sessions are asked meanwhile, over any run of any length, a
      session's rows stay as they were; and unless its collection is edited, its
      next request is answered as if nothing had happened. */
  lemma OthersGoUnnoticed(before: seq<Action>, actions: seq<Action>, x: Action, code: Code)
    requires NobodyAsks(actions, code)
    ensures var a, b := Reached(before), Run(Reached(before), actions);
            code in a.sessions ==>
            && SameSession(a, b, code)
            && (CollectionStands(a, actions, code) && Addresses(x, code) ==> Step(a, x).1 == Step(b, x).1)
  {
    var a, b := Reached(before), Run(Reached(before), actions);
    hide Inv, Step, Run, SameSession, CollectionStands, SameShelf;
    ReachedKeeps(before);
    RunKeeps(a, actions);
    if code in a.sessions {
      RunElsewhere(a, actions, code);
      if CollectionStands(a, actions, code) && Addresses(x, code) {
        RunShelf(a, actions, code);
        SameAnswer(a, b, x, code);
      }
    }
  }

  // ------------------------------------------------------------ polls

  lemma SamePending(a: Db, b: Db, code: Code, round: BatchId)
    requires OptionsRecord(a.batches, a.batchItems, code) == OptionsRecord(b.batches, b.batchItems, code)
    ensures PendingCount(a, code, round) == PendingCount(b, code, round)
  {
    SameRows(a, b, code);
    assert (set x | x in a.batchItems && InSession(a.batchItems, a.batches, code, x)
                    && a.batchItems[x].batch == round && a.batchItems[x].outcome.None?)
        == (set x | x in b.batchItems && InSession(b.batchItems, b.batches, code, x)
                    && b.batchItems[x].batch == round && b.batchItems[x].outcome.None?);
  }

  lemma SamePolls(a: Db, b: Db, code: Code, round: BatchId, pending: Option<int>, now: int)
    requires Newest(a.batches) && Newest(b.batches) && SameSession(a, b, code)
    ensures ResultsState(a, code, round, pending, now).1 == ResultsState(b, code, round, pending, now).1
    ensures CardState(a, code, round, now).1 == CardState(b, code, round, now).1
  {
    if code in a.sessions {
      SameExpiry(a, b, code, now);
      ExpirySpares(a, code, now);
      ExpirySpares(b, code, now);
      var ca, cb := ExpireIfStale(a, code, now), ExpireIfStale(b, code, now);
      hide ExpireIfStale;
      SameOpen(ca, cb, code);
      SameRounds(ca, cb, code);
      SamePending(ca, cb, code, round);
      assert round in BatchesOf(ca.batches, code) <==> round in BatchesOf(cb.batches, code);
      hide RoundsRecord, OptionsRecord, Seats, BallotsOf, PendingCount;
    }
  }

  /** So is a poll, whatever batch it asks about: a batch of another session is
      answered as one that does not exist. */
  lemma PollsAreIsolated(one: seq<Action>, two: seq<Action>, code: Code, round: BatchId, pending: Option<int>, now: int)
    requires SameSession(Reached(one), Reached(two), code)
    ensures ResultsState(Reached(one), code, round, pending, now).1
            == ResultsState(Reached(two), code, round, pending, now).1
    ensures CardState(Reached(one), code, round, now).1 == CardState(Reached(two), code, round, now).1
  {
    hide SameSession, ResultsState, CardState, Run, Newest;
    ReachedKeeps(one);
    ReachedKeeps(two);
    SamePolls(Reached(one), Reached(two), code, round, pending, now);
  }
}
