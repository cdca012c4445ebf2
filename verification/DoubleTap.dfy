/** Double submission: sending a request again changes nothing the first sending
    did not, the session's activity time aside. */
module DoubleTap {
  import opened Prelude
  import opened SessionLogic
  import opened Tables
  import opened Pool
  import opened Handlers
  import opened Invariants
  import opened Runs
  import opened History

  ghost predicate SameButActivity(a: Db, b: Db) {
    b == a.(activity := b.activity)
  }

  /** The buttons a hurried user presses twice. A guest's join is not among
      them: it seats a second row. */
  predicate Repeatable(a: Action) {
    || a.Start? || a.CastVote? || a.Close? || a.KeepOrPass? || a.Next? || a.Finish? || a.Remove?
    || (a.Join? && a.account.Some?)
  }

  lemma FreshStays(db: Db, code: Code, now: int)
    requires code in db.sessions && !Stale(db, code, now)
    ensures ExpireIfStale(db, code, now) == db
  {
  }

  /** A turned-away request is turned away again. */
  lemma GateTwice(db: Db, code: Code, account: Option<Account>, now: int, again: int)
    requires HostGate(db, code, account, now).Turned?
    ensures var once := HostGate(db, code, account, now).db;
            code in once.sessions && !Stale(once, code, again) ==>
            HostGate(once, code, account, again).Turned? && HostGate(once, code, account, again).db == once
  {
    hide DropRoster, DropBallots, OpenOptions;
  }

  /** Someone admitted once is admitted again while the session is live. */
  lemma GateAgain(db: Db, once: Db, code: Code, account: Option<Account>, now: int, again: int)
    requires HostGate(db, code, account, now).Admitted?
    requires code in once.sessions && once.sessions[code].host == db.sessions[code].host && !Stale(once, code, again)
    ensures HostGate(once, code, account, again)
            == if Live(once.sessions[code].status) then Admitted(once) else Turned(once, SeeSession)
  {
    hide ExpireIfStale;
    FreshStays(once, code, again);
  }

  // ------------------------------------------------------------ one by one

  lemma StartAdmittedTwice(db: Db, code: Code, now: int, again: int)
    requires code in db.sessions && Live(db.sessions[code].status)
    ensures var once := StartAdmitted(db, code, now).0;
            code in once.sessions && once.sessions[code].host == db.sessions[code].host
            && SameButActivity(once, StartAdmitted(once, code, again).0)
  {
    hide PoolOf, AssembleBatch, FirstTrack, OpenRound;
    var s := db.sessions[code];
    if s.collection.Some? && OpenBatch(db.batches, code).None? {
      var track := FirstTrack(s.targets);
      if track.Some? {
        var chosen := AssembleBatch(PoolOf(db.items, db.nextItem, s, track.value), {});
        if chosen != [] {
          var dealt := OpenRound(db, code, track.value, chosen);
          RoundShows(db, code, track.value, chosen);
          var once := Touch(SetStatus(dealt, code, Voting), code, now);
          assert StartAdmitted(db, code, now).0 == once;
          StartedStays(once, code, again);
        }
      }
    } else {
      StartedStays(Touch(SetStatus(db, code, Voting), code, now), code, again);
    }
  }

  lemma StartedStays(once: Db, code: Code, again: int)
    requires code in once.sessions && once.sessions[code].status == Voting
    requires once.sessions[code].collection.None? || OpenBatches(once.batches, code) != {}
    ensures SameButActivity(once, StartAdmitted(once, code, again).0)
  {
    SameStatusSame(once, code);
  }

  lemma StartTwice(db: Db, code: Code, account: Option<Account>, now: int, again: int)
    ensures var once := StartVoting(db, code, account, now).0;
            code in once.sessions && !Stale(once, code, again) ==>
            SameButActivity(once, StartVoting(once, code, account, again).0)
  {
    hide HostGate, StartAdmitted, Stale;
    if HostGate(db, code, account, now).Turned? {
      GateTwice(db, code, account, now, again);
    } else {
      StartAdmittedTwice(db, code, now, again);
      var once := StartVoting(db, code, account, now).0;
      if !Stale(once, code, again) {
        GateAgain(db, once, code, account, now, again);
      }
    }
  }

  lemma CloseTwice(db: Db, code: Code, account: Option<Account>, now: int, again: int)
    requires Newest(db.batches)
    ensures var once := CloseByHand(db, code, account, now).0;
            code in once.sessions && !Stale(once, code, again) ==> CloseByHand(once, code, account, again).0 == once
  {
    hide HostGate, CloseRound, Stale, Newest;
    var once := CloseByHand(db, code, account, now).0;
    if HostGate(db, code, account, now).Turned? {
      GateTwice(db, code, account, now, again);
    } else if code in once.sessions && !Stale(once, code, again) {
      if OpenBatch(db.batches, code).Some? {
        ClosedNoneOpen(db, code, OpenBatch(db.batches, code).value);
        CloseSpares(db, code, OpenBatch(db.batches, code).value);
      }
      GateAgain(db, once, code, account, now, again);
    }
  }

  lemma RecordTwice(db: Db, code: Code, b: BatchId, p: PersonId, x: BatchItemId, choice: Choice)
    requires Newest(db.batches) && b in OpenBatches(db.batches, code)
    ensures var once := RecordVote(db, code, b, p, x, choice);
            && once.sessions == db.sessions
            && (OpenBatches(once.batches, code) == {}
                || (once.batches == db.batches && once.batchItems == db.batchItems && once.people == db.people
                    && Ballot(x, p) in once.responses))
  {
    hide CloseRound, EverybodyFinished;
    var cast := db.(responses := db.responses[Ballot(x, p) := choice]);
    ClosedNoneOpen(cast, code, b);
    CloseSpares(cast, code, b);
  }

  lemma VoteTwice(db: Db, code: Code, cookie: Option<PersonId>, account: Option<Account>, x: BatchItemId,
                  choice: string, now: int, again: int)
    requires Newest(db.batches)
    ensures var once := Vote(db, code, cookie, account, x, choice, now).0;
            code in once.sessions && !Stale(once, code, again) ==>
            SameButActivity(once, Vote(once, code, cookie, account, x, choice, again).0)
  {
    hide ExpireIfStale, RecordVote, Stale, ViewerParticipant, Newest;
    var once := Vote(db, code, cookie, account, x, choice, now).0;
    if code in db.sessions && code in once.sessions && !Stale(once, code, again) {
      ExpirySpares(db, code, now);
      var current := ExpireIfStale(db, code, now);
      var viewer := ViewerParticipant(current.people, code, cookie, account);
      var open := OpenBatch(current.batches, code);
      FreshStays(once, code, again);
      if Live(current.sessions[code].status) && viewer.Some? && open.Some? && x in current.batchItems
         && current.batchItems[x].batch == open.value && (choice == "yes" || choice == "no") {
        var c := if choice == "yes" then Yes else No;
        RecordTwice(current, code, open.value, viewer.value, x, c);
        VotedStays(current, code, open.value, viewer.value, x, c, now, again);
      }
    }
  }

  lemma VotedStays(db: Db, code: Code, b: BatchId, p: PersonId, x: BatchItemId, choice: Choice, now: int, again: int)
    requires b in db.batches
    ensures var once := Touch(RecordVote(db, code, b, p, x, choice), code, now);
            Ballot(x, p) in once.responses ==> b in once.batches ==> RecordVote(once, code, b, p, x, choice) == once
  {
    hide CloseRound, EverybodyFinished;
  }

  lemma DecisionWrites(db: Db, x: BatchItemId, keep: bool)
    requires x in db.batchItems
    ensures var after := WriteDecision(db, x, keep);
            && after.sessions == db.sessions && after.batches == db.batches
            && x in after.batchItems && after.batchItems[x].batch == db.batchItems[x].batch
               && after.batchItems[x].outcome.Some?
  {
  }

  lemma DecideTwice(db: Db, code: Code, account: Option<Account>, b: BatchId, x: BatchItemId, keep: bool, other: bool,
                    now: int, again: int)
    ensures var once := Decide(db, code, account, b, x, keep, now).0;
            once != db && code in once.sessions && !Stale(once, code, again) ==>
            Decide(once, code, account, b, x, other, again).0 == once
    ensures var once := Decide(db, code, account, b, x, keep, now).0;
            code in once.sessions && !Stale(once, code, again) ==>
            Decide(once, code, account, b, x, keep, again).0 == once
  {
    hide HostGate, Stale, WriteDecision;
    if x in db.batchItems {
      DecisionWrites(db, x, keep);
    }
    var once := Decide(db, code, account, b, x, keep, now).0;
    if HostGate(db, code, account, now).Turned? {
      GateTwice(db, code, account, now, again);
    } else if code in once.sessions && !Stale(once, code, again) {
      GateAgain(db, once, code, account, now, again);
    }
  }

  lemma RemoveTwice(db: Db, code: Code, account: Option<Account>, p: PersonId, now: int, again: int)
    ensures var once := RemoveParticipant(db, code, account, p, now).0;
            code in once.sessions && !Stale(once, code, again) ==>
            RemoveParticipant(once, code, account, p, again).0 == once
  {
    hide HostGate, Stale;
    var once := RemoveParticipant(db, code, account, p, now).0;
    if HostGate(db, code, account, now).Turned? {
      GateTwice(db, code, account, now, again);
    } else if code in once.sessions && !Stale(once, code, again) {
      GateAgain(db, once, code, account, now, again);
    }
  }

  lemma FinishTwice(db: Db, code: Code, account: Option<Account>, now: int, again: int)
    ensures var once := FinishSession(db, code, account, now).0;
            code in once.sessions && !Stale(once, code, again) ==> FinishSession(once, code, account, again).0 == once
  {
    hide HostGate, Stale, CloseRound, Undecided, OpenBatch;
    var once := FinishSession(db, code, account, now).0;
    if HostGate(db, code, account, now).Turned? {
      GateTwice(db, code, account, now, again);
    } else if code in once.sessions && !Stale(once, code, again) {
      if OpenBatch(db.batches, code).Some? {
        CloseSpares(db, code, OpenBatch(db.batches, code).value);
      }
      GateAgain(db, once, code, account, now, again);
    }
  }

  lemma JoinTwice(db: Db, code: Code, account: Account, name: string, now: int, again: int)
    ensures var once := JoinSession(db, code, Some(account), name, now).0;
            code in once.sessions && !Stale(once, code, again) ==>
            JoinSession(once, code, Some(account), name, again).0 == once
  {
    hide ExpireIfStale, Stale;
    var once := JoinSession(db, code, Some(account), name, now).0;
    if code in db.sessions && code in once.sessions && !Stale(once, code, again) {
      FreshStays(once, code, again);
      var current := ExpireIfStale(db, code, now);
      if once != current {
        assert current.nextPerson in RowsOf(once.people, code, account);
      }
    }
  }

  lemma {:induction false} PassedAssembly(db: Db, code: Code, order: seq<Track>)
    requires code in db.sessions
    ensures NextBatchAssembly(PassAll(db, Undecided(db.batchItems, db.batches, code)), code, order)
            == NextBatchAssembly(db, code, order)
    decreases |order|
  {
    if order != [] {
      hide PoolOf, AssembleBatch, Undecided, PassAll;
      PassedAssembly(db, code, order[1..]);
      PassedNoneUndecided(db, code);
      PassSpares(db, Undecided(db.batchItems, db.batches, code));
    }
  }

  lemma PassNone(db: Db)
    ensures PassAll(db, {}) == db
  {
    assert PassAll(db, {}).batchItems == db.batchItems;
  }

  lemma NextTwice(db: Db, code: Code, account: Option<Account>, now: int, again: int)
    ensures var once := NextBatch(db, code, account, now).0;
            code in once.sessions && !Stale(once, code, again) ==> NextBatch(once, code, account, again).0 == once
  {
    hide HostGate, Stale, NextBatchAssembly, Undecided, PassAll, OpenRound;
    var once := NextBatch(db, code, account, now).0;
    if HostGate(db, code, account, now).Turned? {
      GateTwice(db, code, account, now, again);
    } else if code in once.sessions && !Stale(once, code, again) {
      if db.sessions[code].status == Voting && OpenBatch(db.batches, code).None? {
        var ids := Undecided(db.batchItems, db.batches, code);
        var passed := PassAll(db, ids);
        PassSpares(db, ids);
        PassedNoneUndecided(db, code);
        PassNone(passed);
        PassedAssembly(db, code, TRACK_ORDER);
        var (track, chosen) := NextBatchAssembly(db, code);
        if track.Some? {
          RoundShows(passed, code, track.value, chosen);
        }
      }
      GateAgain(db, once, code, account, now, again);
    }
  }

  // ------------------------------------------------------------ all of them

  /** The same request at a later time. */
  function Again(a: Action, now: int): Action
    requires Repeatable(a)
  {
    a.(now := now)
  }

  /** Over every reachable database, pressing a button twice is pressing it once,
      unless the session has gone stale in between. */
  lemma TwiceIsOnce(actions: seq<Action>, a: Action, now: int)
    requires Repeatable(a)
    ensures var once := Step(Reached(actions), a).0;
            a.code in once.sessions && !Stale(once, a.code, now) ==> SameButActivity(once, Step(once, Again(a, now)).0)
  {
    hide Refs, Targets, Rosters, Rounds, Newest, Sizes, Sourced;
    hide DealOrder, Reported, Tallies, Ballots, Counters, NoneOverdue;
    hide JoinSession, StartVoting, Vote, CloseByHand, Decide, NextBatch, FinishSession;
    hide RemoveParticipant, CreateSession, EditLibrary, ExpireIfStale, Stale, Reached;
    ReachedKeeps(actions);
    var db := Reached(actions);
    match a
    case Join(code, account, name, before) => JoinTwice(db, code, account.value, name, before, now);
    case Start(code, account, before) => StartTwice(db, code, account, before, now);
    case CastVote(code, cookie, account, x, choice, before) =>
      VoteTwice(db, code, cookie, account, x, choice, before, now);
    case Close(code, account, before) => CloseTwice(db, code, account, before, now);
    case KeepOrPass(code, account, b, x, keep, before) => DecideTwice(db, code, account, b, x, keep, keep, before, now);
    case Next(code, account, before) => NextTwice(db, code, account, before, now);
    case Finish(code, account, before) => FinishTwice(db, code, account, before, now);
    case Remove(code, account, p, before) => RemoveTwice(db, code, account, p, before, now);
  }

  /** Keeping a majority item counts once, however often keep or pass follows. */
  lemma KeepCountsOnce(db: Db, code: Code, account: Option<Account>, b: BatchId, x: BatchItemId, keep: bool, now: int,
                       again: int)
    requires Refs(db) && HostGate(db, code, account, now).Admitted?
    requires b in BatchesOf(db.batches, code) && !db.batches[b].open
    requires x in ItemsOf(db.batchItems, b) && db.batchItems[x].outcome.None?
    ensures var once := Decide(db, code, account, b, x, true, now).0;
            var i := db.batchItems[x].item;
            && once.items[i].timesKept == db.items[i].timesKept + 1
            && once.batchItems[x].outcome == Some(KeptHost)
            && (!Stale(once, code, again) ==> Decide(once, code, account, b, x, keep, again).0 == once)
  {
    DecideTwice(db, code, account, b, x, true, keep, now, again);
  }
}
