/** How history grows: over any request batches only appear and close, a decided
    outcome stands, and a session's batches and pools move only by its own deals
    and by edits of its collection. */
module History {
  import opened Prelude
  import opened SessionLogic
  import opened Tables
  import opened Pool
  import opened Handlers
  import opened Invariants
  import opened Preservation
  import opened Runs

  // ------------------------------------------------------------ history only grows

  /** From `a` to `b` batches only appear and close, and what was reported of an
      option, once decided, stands. */
  ghost predicate RoundsOnward(a: map<BatchId, Batch>, next: nat, b: map<BatchId, Batch>) {
    && (forall r | r in a ::
          r in b && b[r] == a[r].(open := b[r].open) && (!a[r].open ==> !b[r].open))
    && (forall r | r in b && r !in a :: r >= next)
  }

  ghost predicate RowsOnward(batches: map<BatchId, Batch>, a: map<BatchItemId, BatchItem>,
                             b: map<BatchItemId, BatchItem>)
  {
    && (forall x | x in a ::
          && x in b && b[x].batch == a[x].batch && b[x].item == a[x].item
          && (a[x].batch in batches && !batches[a[x].batch].open ==>
                b[x] == a[x].(outcome := b[x].outcome) && (a[x].outcome.Some? ==> b[x].outcome == a[x].outcome)))
    && (forall x | x in b && x !in a :: b[x].batch !in batches)
  }

  ghost predicate SessionsOnward(a: map<Code, Session>, b: map<Code, Session>) {
    forall c | c in a :: c in b && b[c].targets == a[c].targets && b[c].collection == a[c].collection
  }

  ghost predicate Onward(a: Db, b: Db) {
    && a.nextBatch <= b.nextBatch
    && RoundsOnward(a.batches, a.nextBatch, b.batches)
    && RowsOnward(a.batches, a.batchItems, b.batchItems)
    && SessionsOnward(a.sessions, b.sessions)
  }

  lemma OnwardTransitive(a: Db, b: Db, c: Db)
    requires Onward(a, b) && Onward(b, c)
    ensures Onward(a, c)
  {
  }

  /** Only the tables of sessions, batches and options matter. */
  lemma OnwardSame(a: Db, b: Db)
    requires b.batches == a.batches && b.nextBatch == a.nextBatch && b.batchItems == a.batchItems
    requires SessionsOnward(a.sessions, b.sessions)
    ensures Onward(a, b)
  {
  }

  lemma CloseOnward(db: Db, code: Code, b: BatchId)
    requires b in db.batches
    ensures Onward(db, CloseRound(db, code, b))
  {
    hide Roster, YesVoters, CountTable, Classify;
    if db.batches[b].open {
      TallyOnward(db.batches, db.batchItems, db.responses, b, |Roster(db.people, code)|);
    }
  }

  lemma TallyOnward(batches: map<BatchId, Batch>, batchItems: map<BatchItemId, BatchItem>,
                    responses: map<Ballot, Choice>, b: BatchId, roster: int)
    requires b in batches && batches[b].open
    ensures RowsOnward(batches, batchItems, TallyTable(batchItems, responses, ItemsOf(batchItems, b), roster))
  {
  }

  lemma DecidedOnward(db: Db, after: Db, ids: set<BatchItemId>)
    requires Pending(db.batches, db.batchItems, ids) && Decided(db.batchItems, after.batchItems, ids)
    requires after.batches == db.batches && after.nextBatch == db.nextBatch && after.sessions == db.sessions
    ensures Onward(db, after)
  {
  }

  lemma OpenOnward(db: Db, code: Code, track: Track, chosen: seq<ItemId>)
    requires Refs(db)
    ensures Onward(db, OpenRound(db, code, track, chosen))
  {
  }

  lemma StatusOnward(db: Db, code: Code, status: Status)
    requires code in db.sessions
    ensures Onward(db, SetStatus(db, code, status))
  {
  }

  lemma ExpiryOnward(db: Db, code: Code, now: int)
    requires code in db.sessions
    ensures Onward(db, ExpireIfStale(db, code, now))
  {
    OnwardSame(db, ExpireIfStale(db, code, now));
  }

  lemma GateOnward(db: Db, code: Code, account: Option<Account>, now: int)
    ensures Onward(db, HostGate(db, code, account, now).db)
  {
    hide ExpireIfStale;
    OnwardSame(db, db);
    if code in db.sessions {
      ExpiryOnward(db, code, now);
    }
  }

  lemma StartOnward(db: Db, code: Code, now: int)
    requires Refs(db) && code in db.sessions
    ensures Onward(db, StartAdmitted(db, code, now).0)
  {
    hide Refs, OpenRound, PoolOf, AssembleBatch, FirstTrack, ApplyTransition, OpenBatch, RoundsOnward, RowsOnward;
    var s := db.sessions[code];
    var target := ApplyTransition(s.status, Voting);
    var track := FirstTrack(s.targets);
    OnwardSame(db, db);
    if target.Ok? && s.collection.Some? && OpenBatch(db.batches, code).None? && track.Some? {
      var chosen := AssembleBatch(PoolOf(db.items, db.nextItem, s, track.value), {});
      OpenOnward(db, code, track.value, chosen);
      var dealt := OpenRound(db, code, track.value, chosen);
      OnwardSame(dealt, Touch(SetStatus(dealt, code, target.value), code, now));
      OnwardTransitive(db, dealt, Touch(SetStatus(dealt, code, target.value), code, now));
    } else if target.Ok? {
      OnwardSame(db, Touch(SetStatus(db, code, target.value), code, now));
    }
  }

  lemma StartVotingOnward(db: Db, code: Code, account: Option<Account>, now: int)
    requires Refs(db)
    ensures Onward(db, StartVoting(db, code, account, now).0)
  {
    hide Refs, HostGate, StartAdmitted, Onward;
    GateOnward(db, code, account, now);
    if HostGate(db, code, account, now).Admitted? {
      StartOnward(db, code, now);
    }
  }

  lemma VoteOnward(db: Db, code: Code, cookie: Option<PersonId>, account: Option<Account>, x: BatchItemId,
                   choice: string, now: int)
    ensures Onward(db, Vote(db, code, cookie, account, x, choice, now).0)
  {
    hide ExpireIfStale, CloseRound, EverybodyFinished, RoundsOnward, RowsOnward;
    OnwardSame(db, db);
    if code in db.sessions {
      ExpiryOnward(db, code, now);
      var current := ExpireIfStale(db, code, now);
      var open := OpenBatch(current.batches, code);
      var viewer := ViewerParticipant(current.people, code, cookie, account);
      if open.Some? && viewer.Some? {
        var c := if choice == "yes" then Yes else No;
        var cast := current.(responses := current.responses[Ballot(x, viewer.value) := c]);
        CloseOnward(cast, code, open.value);
        OnwardSame(current, cast);
        OnwardTransitive(current, cast, CloseRound(cast, code, open.value));
        RecordOnward(current, code, open.value, viewer.value, x, c);
        OnwardTransitive(db, current, Touch(RecordVote(current, code, open.value, viewer.value, x, c), code, now));
      }
    }
  }

  lemma RecordOnward(db: Db, code: Code, b: BatchId, p: PersonId, x: BatchItemId, choice: Choice)
    requires b in db.batches
    ensures forall now :: Onward(db, Touch(RecordVote(db, code, b, p, x, choice), code, now))
  {
    hide CloseRound, EverybodyFinished, RoundsOnward, RowsOnward;
    var cast := db.(responses := db.responses[Ballot(x, p) := choice]);
    CloseOnward(cast, code, b);
    OnwardSame(db, cast);
    OnwardSame(db, db);
    OnwardTransitive(db, cast, CloseRound(cast, code, b));
  }

  lemma CloseByHandOnward(db: Db, code: Code, account: Option<Account>, now: int)
    ensures Onward(db, CloseByHand(db, code, account, now).0)
  {
    hide HostGate, CloseRound, RoundsOnward, RowsOnward;
    GateOnward(db, code, account, now);
    if HostGate(db, code, account, now).Admitted? && OpenBatch(db.batches, code).Some? {
      CloseOnward(db, code, OpenBatch(db.batches, code).value);
    }
  }

  lemma DecideOnward(db: Db, code: Code, account: Option<Account>, b: BatchId, x: BatchItemId, keep: bool, now: int)
    ensures Onward(db, Decide(db, code, account, b, x, keep, now).0)
  {
    hide HostGate, WriteDecision, Onward;
    GateOnward(db, code, account, now);
    OnwardSelf(db);
    if HostGate(db, code, account, now).Admitted? && b in db.batches && x in db.batchItems
       && db.batchItems[x].batch == b
       && !db.batches[b].open && db.batchItems[x].outcome.None? {
      DecisionIsDecided(db, x, keep);
      DecidedOnward(db, WriteDecision(db, x, keep), {x});
      TouchOnward(db, WriteDecision(db, x, keep), code, now);
    }
  }

  lemma TouchOnward(a: Db, b: Db, code: Code, now: int)
    requires Onward(a, b)
    ensures Onward(a, Touch(b, code, now))
  {
  }

  lemma NextOnward(db: Db, code: Code, account: Option<Account>, now: int)
    requires Refs(db)
    ensures Onward(db, NextBatch(db, code, account, now).0)
  {
    hide Refs, HostGate, OpenRound, NextBatchAssembly, RoundsOnward, RowsOnward;
    GateOnward(db, code, account, now);
    if HostGate(db, code, account, now).Admitted? {
      var ids := Undecided(db.batchItems, db.batches, code);
      UndecidedIsPending(db, code);
      DecidedOnward(db, PassAll(db, ids), ids);
      PassSpares(db, ids);
      var (track, chosen) := NextBatchAssembly(db, code);
      if track.Some? {
        OpenOnward(PassAll(db, ids), code, track.value, chosen);
        OnwardTransitive(db, PassAll(db, ids), OpenRound(PassAll(db, ids), code, track.value, chosen));
      }
    }
  }

  lemma FinishOnward(db: Db, code: Code, account: Option<Account>, now: int)
    ensures Onward(db, FinishSession(db, code, account, now).0)
  {
    hide HostGate, CloseRound, RoundsOnward, RowsOnward, Undecided;
    GateOnward(db, code, account, now);
    if HostGate(db, code, account, now).Admitted? {
      var open := OpenBatch(db.batches, code);
      var ids := Undecided(db.batchItems, db.batches, code);
      var closed := if open.Some? then Touch(CloseRound(db, code, open.value), code, now) else db;
      OnwardSame(db, db);
      UndecidedIsPending(db, code);
      if open.Some? {
        CloseOnward(db, code, open.value);
        StillPending(db, code, open.value, ids);
      }
      DecidedOnward(closed, PassAll(closed, ids), ids);
      OnwardTransitive(db, closed, PassAll(closed, ids));
      StatusOnward(PassAll(closed, ids), code, Complete);
      OnwardTransitive(db, PassAll(closed, ids), SetStatus(PassAll(closed, ids), code, Complete));
    }
  }

  /** Creating a session touches no other, and nothing dealt or stocked. */
  lemma CreateSpares(db: Db, a: Action)
    requires a.Create?
    ensures var after := Step(db, a).0;
            && after.batches == db.batches && after.nextBatch == db.nextBatch && after.batchItems == db.batchItems
            && after.items == db.items && after.nextItem == db.nextItem
            && forall c | c in db.sessions :: c in after.sessions && after.sessions[c] == db.sessions[c]
  {
    hide ChosenTargets;
  }

  lemma EditSpares(db: Db, a: Action)
    requires a.AddItem? || a.EditItem? || a.ArchiveItem?
    ensures var after := Step(db, a).0;
            && after.batches == db.batches && after.nextBatch == db.nextBatch && after.batchItems == db.batchItems
            && after.sessions == db.sessions
  {
  }

  lemma QuietStepsOnward(db: Db, a: Action)
    requires a.AddItem? || a.EditItem? || a.ArchiveItem? || a.Create?
    ensures Onward(db, Step(db, a).0)
  {
    if a.Create? {
      CreateSpares(db, a);
    } else {
      EditSpares(db, a);
    }
    hide Step, Onward;
    OnwardSame(db, Step(db, a).0);
  }

  lemma JoinOnward(db: Db, code: Code, account: Option<Account>, name: string, now: int)
    ensures Onward(db, JoinSession(db, code, account, name, now).0)
  {
    hide ExpireIfStale, ExistingRow, RoundsOnward, RowsOnward;
    OnwardSame(db, db);
    if code in db.sessions {
      ExpiryOnward(db, code, now);
    }
  }

  lemma RemoveOnward(db: Db, code: Code, account: Option<Account>, p: PersonId, now: int)
    ensures Onward(db, RemoveParticipant(db, code, account, p, now).0)
  {
    hide HostGate, RoundsOnward, RowsOnward;
    GateOnward(db, code, account, now);
  }

  /** Every request moves history onward. */
  lemma StepOnward(db: Db, a: Action)
    requires Refs(db)
    ensures Onward(db, Step(db, a).0)
  {
    hide Refs, Onward, JoinSession, StartVoting, Vote, CloseByHand, Decide;
    hide NextBatch, FinishSession, RemoveParticipant, CreateSession, EditLibrary, ExpireIfStale;
    match a
    case AddItem(_, _, _) => QuietStepsOnward(db, a);
    case EditItem(_, _, _) => QuietStepsOnward(db, a);
    case ArchiveItem(_, _) => QuietStepsOnward(db, a);
    case Create(_, _, _, _, _, _, _, _, _, _) => QuietStepsOnward(db, a);
    case Join(code, account, name, now) => JoinOnward(db, code, account, name, now);
    case Start(code, account, now) => StartVotingOnward(db, code, account, now);
    case CastVote(code, cookie, account, x, choice, now) => VoteOnward(db, code, cookie, account, x, choice, now);
    case Close(code, account, now) => CloseByHandOnward(db, code, account, now);
    case KeepOrPass(code, account, b, x, keep, now) => DecideOnward(db, code, account, b, x, keep, now);
    case Next(code, account, now) => NextOnward(db, code, account, now);
    case Finish(code, account, now) => FinishOnward(db, code, account, now);
    case Remove(code, account, p, now) => RemoveOnward(db, code, account, p, now);
    case View(code, now) =>
      OnwardSelf(db);
      if code in db.sessions {
        ExpiryOnward(db, code, now);
      }
  }

  lemma OnwardSelf(db: Db)
    ensures Onward(db, db)
  {
  }

  lemma {:induction false} RunOnward(db: Db, actions: seq<Action>)
    requires Inv(db)
    ensures Onward(db, Run(db, actions))
    decreases |actions|
  {
    hide Targets, Rosters, Rounds, Newest, Sizes, Sourced, DealOrder, Reported, Tallies, Ballots, Counters, NoneOverdue;
    hide Onward, Step;
    OnwardSelf(db);
    if actions != [] {
      var init := actions[..|actions| - 1];
      RunOnward(db, init);
      RunKeeps(db, init);
      StepOnward(Run(db, init), actions[|actions| - 1]);
      OnwardTransitive(db, Run(db, init), Run(db, actions));
    }
  }

  // ------------------------------------------------------------ the library stands still

  /** The library as the pools see it, and the sessions' settings, stay. */
  ghost predicate Steady(a: Db, b: Db) {
    && SameLibrary(a.items, b.items) && a.nextItem == b.nextItem
    && forall c | c in a.sessions :: c in b.sessions && b.sessions[c] == a.sessions[c].(status := b.sessions[c].status)
  }

  /** The session gets no new batch. */
  ghost predicate NoNewRound(a: Db, b: Db, code: Code) {
    BatchesOf(b.batches, code) <= BatchesOf(a.batches, code)
  }

  ghost predicate Unmoved(a: Db, b: Db, code: Code) {
    Steady(a, b) && NoNewRound(a, b, code)
  }

  predicate EditsLibrary(a: Action) {
    a.AddItem? || a.EditItem? || a.ArchiveItem?
  }

  /** The requests that can deal the session a batch. */
  predicate MayDeal(a: Action, code: Code) {
    (a.Start? || a.Next?) && a.code == code
  }

  lemma CloseUnmoved(db: Db, round: Code, b: BatchId, code: Code)
    requires b in db.batches
    ensures Unmoved(db, CloseRound(db, round, b), code)
  {
    hide ItemsOf, Roster, YesVoters, TallyTable, Shown, ShownAndKept;
  }

  lemma ExpiryUnmoved(db: Db, other: Code, now: int, code: Code)
    requires other in db.sessions
    ensures Unmoved(db, ExpireIfStale(db, other, now), code)
  {
  }

  lemma GateUnmoved(db: Db, other: Code, account: Option<Account>, now: int, code: Code)
    ensures Unmoved(db, HostGate(db, other, account, now).db, code)
  {
    if other in db.sessions {
      hide ExpireIfStale;
      ExpiryUnmoved(db, other, now, code);
    }
  }

  lemma StartUnmoved(db: Db, other: Code, account: Option<Account>, now: int, code: Code)
    ensures Steady(db, StartVoting(db, other, account, now).0)
    ensures other != code ==> NoNewRound(db, StartVoting(db, other, account, now).0, code)
  {
    hide HostGate, StartAdmitted, Dealt, SetStatus;
    GateUnmoved(db, other, account, now, code);
    if HostGate(db, other, account, now).Admitted? {
      AdmittedIsLive(db, other, account, now);
      StartShapes(db, other, now);
      var after := StartAdmitted(db, other, now).0;
      UnmovedSelf(db, code);
      StatusUnmoved(db, other, Voting, code);
      if track, chosen :| after == Touch(Dealt(db, other, track, chosen), other, now) {
        DealtSpares(db, other, track, chosen);
      }
    }
  }

  lemma UnmovedSelf(db: Db, code: Code)
    ensures Unmoved(db, db, code)
  {
  }

  lemma StatusUnmoved(db: Db, other: Code, status: Status, code: Code)
    requires other in db.sessions
    ensures Unmoved(db, SetStatus(db, other, status), code)
  {
  }

  lemma UnmovedTransitive(a: Db, b: Db, c: Db, code: Code)
    requires Unmoved(a, b, code) && Unmoved(b, c, code)
    ensures Unmoved(a, c, code)
  {
  }

  lemma RecordUnmoved(db: Db, other: Code, b: BatchId, p: PersonId, x: BatchItemId, choice: Choice, code: Code)
    requires b in db.batches
    ensures forall now :: Unmoved(db, Touch(RecordVote(db, other, b, p, x, choice), other, now), code)
  {
    hide CloseRound, EverybodyFinished;
    CloseUnmoved(db.(responses := db.responses[Ballot(x, p) := choice]), other, b, code);
  }

  lemma VoteUnmoved(db: Db, other: Code, cookie: Option<PersonId>, account: Option<Account>, x: BatchItemId,
                    choice: string, now: int, code: Code)
    ensures Unmoved(db, Vote(db, other, cookie, account, x, choice, now).0, code)
  {
    hide Unmoved, ExpireIfStale, RecordVote, ViewerParticipant;
    UnmovedSelf(db, code);
    if other in db.sessions {
      ExpiryUnmoved(db, other, now, code);
      var current := ExpireIfStale(db, other, now);
      var open := OpenBatch(current.batches, other);
      var viewer := ViewerParticipant(current.people, other, cookie, account);
      if open.Some? && viewer.Some? {
        var c := if choice == "yes" then Yes else No;
        RecordUnmoved(current, other, open.value, viewer.value, x, c, code);
        UnmovedTransitive(db, current, Touch(RecordVote(current, other, open.value, viewer.value, x, c), other, now),
                          code);
      }
    }
  }

  lemma NextUnmoved(db: Db, other: Code, account: Option<Account>, now: int, code: Code)
    ensures Steady(db, NextBatch(db, other, account, now).0)
    ensures other != code ==> NoNewRound(db, NextBatch(db, other, account, now).0, code)
  {
    hide HostGate, NextBatchAssembly, NewOptions, NextSeq, SeqsOf, OpenBatch, Undecided;
    GateUnmoved(db, other, account, now, code);
  }

  lemma FinishUnmoved(db: Db, other: Code, account: Option<Account>, now: int, code: Code)
    ensures Unmoved(db, FinishSession(db, other, account, now).0, code)
  {
    hide HostGate, CloseRound, Undecided, OpenBatch;
    GateUnmoved(db, other, account, now, code);
    if HostGate(db, other, account, now).Admitted? && OpenBatch(db.batches, other).Some? {
      CloseUnmoved(db, other, OpenBatch(db.batches, other).value, code);
    }
  }

  lemma CreateUnmoved(db: Db, a: Action, code: Code)
    requires a.Create?
    ensures Unmoved(db, Step(db, a).0, code)
  {
    hide Step;
    CreateSpares(db, a);
  }

  lemma DecisionUnmoved(db: Db, x: BatchItemId, keep: bool, code: Code)
    requires x in db.batchItems
    ensures Unmoved(db, WriteDecision(db, x, keep), code)
  {
  }

  lemma OthersUnmoved(db: Db, a: Action, code: Code)
    requires !EditsLibrary(a) && !a.Start? && !a.Next? && !a.CastVote? && !a.Finish?
    ensures Unmoved(db, Step(db, a).0, code)
  {
    hide HostGate, ExpireIfStale, CloseRound, ExistingRow, OpenBatch, WriteDecision;
    match a
    case Create(_, _, _, _, _, _, _, _, _, _) => CreateUnmoved(db, a, code);
    case Join(other, _, _, now) => if other in db.sessions { ExpiryUnmoved(db, other, now, code); }
    case Close(other, account, now) =>
      GateUnmoved(db, other, account, now, code);
      if HostGate(db, other, account, now).Admitted? && OpenBatch(db.batches, other).Some? {
        CloseUnmoved(db, other, OpenBatch(db.batches, other).value, code);
      }
    case KeepOrPass(other, account, _, x, keep, now) =>
      GateUnmoved(db, other, account, now, code);
      if x in db.batchItems {
        DecisionUnmoved(db, x, keep, code);
      }
    case Remove(other, account, _, now) => GateUnmoved(db, other, account, now, code);
    case View(other, now) => if other in db.sessions { ExpiryUnmoved(db, other, now, code); }
  }

  /** Without library edits every request leaves pools alone, and only a start
      or next-batch of the session itself can deal it a batch. */
  lemma StepUnmoved(db: Db, a: Action, code: Code)
    requires !EditsLibrary(a)
    ensures Steady(db, Step(db, a).0)
    ensures !MayDeal(a, code) ==> NoNewRound(db, Step(db, a).0, code)
  {
    hide Steady, NoNewRound, StartVoting, Vote, NextBatch, FinishSession;
    if a.Start? {
      StartUnmoved(db, a.code, a.account, a.now, code);
    } else if a.Next? {
      NextUnmoved(db, a.code, a.account, a.now, code);
    } else if a.CastVote? {
      VoteUnmoved(db, a.code, a.cookie, a.account, a.option, a.choice, a.now, code);
    } else if a.Finish? {
      FinishUnmoved(db, a.code, a.account, a.now, code);
    } else {
      OthersUnmoved(db, a, code);
    }
  }

  lemma NoNewRoundSameRounds(a: Db, b: Db, code: Code)
    requires Onward(a, b) && NoNewRound(a, b, code)
    ensures BatchesOf(b.batches, code) == BatchesOf(a.batches, code)
  {
  }

  /** Onward, with no new batch: the session's options are the same ones. */
  lemma SameOptions(a: Db, b: Db, code: Code)
    requires Onward(a, b) && NoNewRound(a, b, code)
    ensures BatchesOf(b.batches, code) == BatchesOf(a.batches, code)
    ensures forall x :: InSession(b.batchItems, b.batches, code, x) <==> InSession(a.batchItems, a.batches, code, x)
    ensures forall x | InSession(a.batchItems, a.batches, code, x) ::
              b.batchItems[x].item == a.batchItems[x].item && b.batchItems[x].batch == a.batchItems[x].batch
  {
    NoNewRoundSameRounds(a, b, code);
    forall x ensures InSession(b.batchItems, b.batches, code, x) <==> InSession(a.batchItems, a.batches, code, x) {
      if InSession(b.batchItems, b.batches, code, x) {
        assert b.batchItems[x].batch in BatchesOf(b.batches, code);
      }
    }
  }

  lemma SameOptionsOffered(a: Db, b: Db, code: Code)
    requires Onward(a, b) && NoNewRound(a, b, code)
    ensures Offered(b.batchItems, b.batches, code) == Offered(a.batchItems, a.batches, code)
  {
    SameOptions(a, b, code);
    hide Onward, NoNewRound, InSession;
    forall i ensures i in Offered(b.batchItems, b.batches, code) <==> i in Offered(a.batchItems, a.batches, code) {
      if x :| x in a.batchItems && InSession(a.batchItems, a.batches, code, x) && a.batchItems[x].item == i {
        assert InSession(b.batchItems, b.batches, code, x);
      }
      if x :| x in b.batchItems && InSession(b.batchItems, b.batches, code, x) && b.batchItems[x].item == i {
        assert InSession(a.batchItems, a.batches, code, x);
      }
    }
  }

  // ------------------------------------------------------------ the collection stands still

  /** The library edits that touch the session's own collection. */
  predicate EditsCollection(db: Db, a: Action, code: Code) {
    && code in db.sessions
    && match a
       case AddItem(collection, _, _) => Some(collection) == db.sessions[code].collection
       case EditItem(i, _, _) => i in db.items && Some(db.items[i].collection) == db.sessions[code].collection
       case ArchiveItem(i, _) => i in db.items && Some(db.items[i].collection) == db.sessions[code].collection
       case _ => false
  }

  lemma EditedElsewhere(db: Db, a: Action, code: Code)
    requires code in db.sessions && EditsLibrary(a) && !EditsCollection(db, a, code)
    requires forall i | i in db.items :: i < db.nextItem
    ensures SameShelf(db.items, EditLibrary(db, a).items, db.sessions[code].collection)
    ensures EditLibrary(db, a).sessions == db.sessions
  {
    var ours := db.sessions[code].collection;
    hide SameShelf;
    ShelfItself(db.items, ours);
    match a
    case AddItem(collection, name, types) =>
      RowElsewhere(db.items, db.nextItem, Item(collection, name, types, false, 0, 0), ours);
    case EditItem(i, name, types) =>
      if i in db.items { RowElsewhere(db.items, i, db.items[i].(name := name, types := types), ours); }
    case ArchiveItem(i, archived) =>
      if i in db.items { RowElsewhere(db.items, i, db.items[i].(archived := archived), ours); }
  }

  lemma ShelfItself(items: map<ItemId, Item>, collection: Option<nat>)
    ensures SameShelf(items, items, collection)
  {
  }

  lemma RowElsewhere(items: map<ItemId, Item>, i: ItemId, row: Item, collection: Option<nat>)
    requires Some(row.collection) != collection && (i in items ==> Some(items[i].collection) != collection)
    ensures SameShelf(items, items[i := row], collection)
  {
  }

  lemma EditStep(db: Db, a: Action)
    requires EditsLibrary(a)
    ensures Step(db, a).0 == EditLibrary(db, a)
  {
    hide EditLibrary;
  }

  /** No request of the run edits the session's collection. */
  ghost predicate CollectionStands(db: Db, actions: seq<Action>, code: Code) {
    forall n | 0 <= n < |actions| :: !EditsCollection(Run(db, actions[..n]), actions[n], code)
  }

  lemma StepShelf(db: Db, a: Action, code: Code)
    requires Refs(db) && code in db.sessions && !EditsCollection(db, a, code)
    ensures SameShelf(db.items, Step(db, a).0.items, db.sessions[code].collection)
  {
    if EditsLibrary(a) {
      EditedElsewhere(db, a, code);
      EditStep(db, a);
    } else {
      hide Step;
      StepUnmoved(db, a, code);
    }
  }

  lemma ShelfTransitive(a: map<ItemId, Item>, b: map<ItemId, Item>, c: map<ItemId, Item>, collection: Option<nat>)
    requires SameShelf(a, b, collection) && SameShelf(b, c, collection)
    ensures SameShelf(a, c, collection)
  {
  }

  /** A collection nobody edits reads the same after any run. */
  lemma {:induction false} RunShelf(db: Db, actions: seq<Action>, code: Code)
    requires Inv(db) && code in db.sessions && CollectionStands(db, actions, code)
    ensures SameShelf(db.items, Run(db, actions).items, db.sessions[code].collection)
    decreases |actions|
  {
    hide Targets, Rosters, Rounds, Newest, Sizes, Sourced, DealOrder, Reported, Tallies, Ballots, Counters, NoneOverdue;
    hide EditsCollection, SameShelf, RoundsOnward, RowsOnward, Step, Run;
    var ours := db.sessions[code].collection;
    if actions == [] {
      RunNothing(db);
      ShelfItself(db.items, ours);
    } else {
      var init, last := actions[..|actions| - 1], |actions| - 1;
      assert forall n | 0 <= n < last :: init[..n] == actions[..n];
      assert actions[..last] == init;
      RunShelf(db, init, code);
      RunKeeps(db, init);
      RunOnward(db, init);
      RunUnfolds(db, actions);
      StepShelf(Run(db, init), actions[last], code);
      ShelfTransitive(db.items, Run(db, init).items, Run(db, actions).items, ours);
    }
  }

  // ------------------------------------------------------------ what a request deals

  /** Nothing is left undecided after the pass. */
  lemma PassedNoneUndecided(db: Db, code: Code)
    ensures var after := PassAll(db, Undecided(db.batchItems, db.batches, code));
            && Undecided(after.batchItems, after.batches, code) == {}
            && Offered(after.batchItems, after.batches, code) == Offered(db.batchItems, db.batches, code)
            && forall t :: Kept(after.batchItems, after.batches, code, t) == Kept(db.batchItems, db.batches, code, t)
  {
    var after := PassAll(db, Undecided(db.batchItems, db.batches, code));
    assert forall x ::
        InSession(after.batchItems, after.batches, code, x) <==> InSession(db.batchItems, db.batches, code, x);
    forall i
      ensures i in Offered(after.batchItems, after.batches, code) <==> i in Offered(db.batchItems, db.batches, code)
    {
      if x :| x in db.batchItems && InSession(db.batchItems, db.batches, code, x) && db.batchItems[x].item == i {
        assert InSession(after.batchItems, after.batches, code, x) && after.batchItems[x].item == i;
      }
    }
    forall t ensures Kept(after.batchItems, after.batches, code, t) == Kept(db.batchItems, db.batches, code, t) {
      forall x
        ensures x in Kept(after.batchItems, after.batches, code, t) <==> x in Kept(db.batchItems, db.batches, code, t)
      {
      }
    }
  }

  lemma AssembledIsNew(db: Db, code: Code, track: Track, chosen: seq<ItemId>)
    requires Refs(db) && code in db.sessions && Assembles(db, code, track, chosen)
    ensures forall i | i in chosen :: i !in Offered(db.batchItems, db.batches, code)
  {
    PoolIsEligible(db.items, db.nextItem, db.sessions[code], track);
    AssembleBatchDeals(PoolOf(db.items, db.nextItem, db.sessions[code], track),
                       Offered(db.batchItems, db.batches, code), BATCH_SIZE);
  }

  /** The batch a start would deal: the first track's pool from its top. */
  function FirstDeal(db: Db, code: Code): seq<ItemId>
    requires code in db.sessions
  {
    var track := FirstTrack(db.sessions[code].targets);
    if track.None? then [] else AssembleBatch(PoolOf(db.items, db.nextItem, db.sessions[code], track.value), {})
  }

  lemma LiveHasFirstTrack(db: Db, code: Code)
    requires Targets(db.sessions) && code in db.sessions
    ensures FirstTrack(db.sessions[code].targets).Some?
  {
    var t :| t in db.sessions[code].targets;
    EveryTrackListed(t);
  }

  /** What an admitted start does. */
  lemma StartDeals(db: Db, code: Code, account: Option<Account>, now: int)
    requires HostGate(db, code, account, now).Admitted? && FirstTrack(db.sessions[code].targets).Some?
    requires db.sessions[code].collection.Some? && OpenBatch(db.batches, code).None?
    ensures var track, chosen := FirstTrack(db.sessions[code].targets).value, FirstDeal(db, code);
            StartVoting(db, code, account, now)
            == if chosen == [] then (db, BadRequest) else (Touch(Dealt(db, code, track, chosen), code, now), SeeSession)
  {
  }

  /** `next_batch` when it deals: pass what is undecided, then open the round. */
  lemma NextDeals(db: Db, code: Code, account: Option<Account>, now: int)
    requires HostGate(db, code, account, now).Admitted? && db.sessions[code].status == Voting
    requires OpenBatch(db.batches, code).None? && NextBatchAssembly(db, code).0.Some?
    ensures var (track, chosen) := NextBatchAssembly(db, code);
            NextBatch(db, code, account, now)
            == (Touch(OpenRound(PassAll(db, Undecided(db.batchItems, db.batches, code)), code, track.value, chosen),
                      code, now), SeeSession)
  {
  }

  /** The table a request deals from: next-batch passes what is undecided first. */
  function DealtFrom(db: Db, a: Action, code: Code): Db {
    if a.Next? then PassAll(db, Undecided(db.batchItems, db.batches, code)) else db
  }

  /** The track and the items a request deals to the session, if it deals at all. */
  ghost function DealOf(db: Db, a: Action, code: Code): (d: Option<(Track, seq<ItemId>)>)
    ensures d.Some? ==>
            MayDeal(a, code) && code in db.sessions && OpenBatches(db.batches, code) == {} && d.value.1 != []
  {
    if !MayDeal(a, code) || !HostGate(db, code, a.account, a.now).Admitted? || OpenBatches(db.batches, code) != {}
      then None
    else if a.Start? then
      if db.sessions[code].collection.None? || FirstDeal(db, code) == [] then None
      else Some((FirstTrack(db.sessions[code].targets).value, FirstDeal(db, code)))
    else if db.sessions[code].status != Voting then None
    else
      AssemblyFinds(db, code, TRACK_ORDER);
      var (track, chosen) := NextBatchAssembly(db, code);
      if track.None? then None else Some((track.value, chosen))
  }

  /** `after` is what dealing these items to the session makes of `db`. */
  ghost predicate IsDealt(db: Db, after: Db, code: Code, track: Track, chosen: seq<ItemId>) {
    && Refs(db) && Dealable(db, code, track, chosen)
    && after.batches == Dealt(db, code, track, chosen).batches
    && after.batchItems == Dealt(db, code, track, chosen).batchItems
    && code in after.sessions && after.sessions[code] == db.sessions[code].(status := Voting)
  }

  lemma StartDealsIt(db: Db, a: Action, code: Code)
    requires Inv(db) && a.Start? && a.code == code && code in db.sessions
    ensures match DealOf(db, a, code)
            case None => NoNewRound(db, Step(db, a).0, code)
            case Some(d) => IsDealt(DealtFrom(db, a, code), Step(db, a).0, code, d.0, d.1)
  {
    hide Refs, Targets, Rosters, Rounds, Newest, Sizes, Sourced;
    hide DealOrder, Reported, Tallies, Ballots, Counters, NoneOverdue;
    hide HostGate, FirstTrack, PoolOf, AssembleBatch, OpenRound, FirstDeal, Steady, NewOptions;
    GateUnmoved(db, code, a.account, a.now, code);
    if HostGate(db, code, a.account, a.now).Admitted? {
      AdmittedIsLive(db, code, a.account, a.now);
      LiveHasFirstTrack(db, code);
      if db.sessions[code].collection.Some? && OpenBatches(db.batches, code) == {} {
        StartDeals(db, code, a.account, a.now);
        FirstDealOf(db, code);
        if FirstDeal(db, code) != [] {
          AssembledIsDealable(db, code, FirstTrack(db.sessions[code].targets).value, {}, FirstDeal(db, code));
          DealtSettings(db, code, FirstTrack(db.sessions[code].targets).value, FirstDeal(db, code));
        }
      }
    }
  }

  lemma AdmittedIsLive(db: Db, code: Code, account: Option<Account>, now: int)
    requires HostGate(db, code, account, now).Admitted?
    ensures code in db.sessions && Live(db.sessions[code].status) && HostGate(db, code, account, now).db == db
  {
  }

  lemma FirstDealOf(db: Db, code: Code)
    requires code in db.sessions && FirstTrack(db.sessions[code].targets).Some?
    ensures FirstDeal(db, code)
            == AssembleBatch(PoolOf(db.items, db.nextItem, db.sessions[code],
                                    FirstTrack(db.sessions[code].targets).value), {})
  {
    hide AssembleBatch, PoolOf, FirstTrack;
  }

  lemma DealtSettings(db: Db, code: Code, track: Track, chosen: seq<ItemId>)
    requires code in db.sessions
    ensures var after := Dealt(db, code, track, chosen);
            code in after.sessions && after.sessions[code] == db.sessions[code].(status := Voting)
  {
    hide NewOptions, NextSeq, SeqsOf;
  }

  lemma NextDealsIt(db: Db, a: Action, code: Code)
    requires Inv(db) && a.Next? && a.code == code && code in db.sessions
    ensures match DealOf(db, a, code)
            case None => NoNewRound(db, Step(db, a).0, code)
            case Some(d) => IsDealt(DealtFrom(db, a, code), Step(db, a).0, code, d.0, d.1)
  {
    hide Refs, Targets, Rosters, Rounds, Newest, Sizes, Sourced;
    hide DealOrder, Reported, Tallies, Ballots, Counters, NoneOverdue;
    hide HostGate, OpenRound, NextBatchAssembly, PoolOf, AssembleBatch, Undecided;
    GateUnmoved(db, code, a.account, a.now, code);
    if HostGate(db, code, a.account, a.now).Admitted? {
      AdmittedIsLive(db, code, a.account, a.now);
      if db.sessions[code].status == Voting && OpenBatches(db.batches, code) == {} {
        var ids := Undecided(db.batchItems, db.batches, code);
        UndecidedIsPending(db, code);
        PassKeeps(db, ids);
        AssemblyFinds(db, code, TRACK_ORDER);
        var (track, chosen) := NextBatchAssembly(db, code);
        if track.Some? {
          NoCollectionNothingDealt(db, code, track.value);
          AssembledIsDealable(db, code, track.value, Offered(db.batchItems, db.batches, code), chosen);
          PassedSame(db, ids, code, track.value, chosen);
          DealtSettings(PassAll(db, ids), code, track.value, chosen);
          RoundShows(PassAll(db, ids), code, track.value, chosen);
          SameStatusSame(OpenRound(PassAll(db, ids), code, track.value, chosen), code);
        }
      }
    }
  }

  lemma WholeRefs(db: Db)
    requires Inv(db)
    ensures Refs(db)
  {
  }

  lemma EditAddsNoRound(db: Db, a: Action, code: Code)
    requires EditsLibrary(a)
    ensures NoNewRound(db, Step(db, a).0, code)
  {
  }

  /** Every request moves history onward, and either gives the session no batch
      or deals it exactly one. */
  lemma StepDeals(db: Db, a: Action, code: Code)
    requires Inv(db) && code in db.sessions
    ensures Onward(db, Step(db, a).0)
    ensures match DealOf(db, a, code)
            case None => NoNewRound(db, Step(db, a).0, code)
            case Some(d) => IsDealt(DealtFrom(db, a, code), Step(db, a).0, code, d.0, d.1)
  {
    hide Inv, Step, Onward, NoNewRound, Steady, IsDealt, DealtFrom, HostGate;
    WholeRefs(db);
    StepOnward(db, a);
    if MayDeal(a, code) {
      if a.Start? {
        StartDealsIt(db, a, code);
      } else {
        NextDealsIt(db, a, code);
      }
    } else if EditsLibrary(a) {
      EditAddsNoRound(db, a, code);
    } else {
      StepUnmoved(db, a, code);
    }
  }
}
