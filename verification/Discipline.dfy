/** What a session's dealing keeps: no item is offered twice, undecided options
    sit only in the newest batch, and a batch is dealt only while its track is
    below target. From these follow the over-target bound and the bound on the
    number of rounds.

    `start_voting` deals whenever no batch is open, so a start sent to a session
    that is already voting between batches deals its first track again. The runs
    on which the discipline holds are exactly those in which every such start,
    if it deals at all, happens to deal fairly. */
module Discipline {
  import opened Prelude
  import opened SessionLogic
  import opened Tables
  import opened Pool
  import opened Handlers
  import opened Invariants
  import opened Preservation
  import opened Runs
  import opened History

  /** The session is not dealt the same item twice. */
  ghost predicate NoReoffer(batches: map<BatchId, Batch>, batchItems: map<BatchItemId, BatchItem>, code: Code) {
    forall x, y | InSession(batchItems, batches, code, x) && InSession(batchItems, batches, code, y) && x != y ::
      batchItems[x].item != batchItems[y].item
  }

  /** An option of the session still undecided has no later batch after it. */
  ghost predicate DecidedFirst(batches: map<BatchId, Batch>, batchItems: map<BatchItemId, BatchItem>, code: Code) {
    forall x, b | InSession(batchItems, batches, code, x) && batchItems[x].outcome.None?
                  && b in BatchesOf(batches, code) ::
      b <= batchItems[x].batch
  }

  /** Options of earlier batches of the same session and track that were kept. */
  function KeptBefore(batches: map<BatchId, Batch>, batchItems: map<BatchItemId, BatchItem>,
                      b: BatchId): set<BatchItemId>
    requires b in batches
  {
    set x | x in batchItems && InSession(batchItems, batches, batches[b].session, x)
            && batches[batchItems[x].batch].track == batches[b].track
            && batchItems[x].batch < b && IsKept(batchItems[x].outcome)
  }

  /** Every batch was dealt while its track was still short of its target. */
  ghost predicate DealtShort(sessions: map<Code, Session>, batches: map<BatchId, Batch>,
                             batchItems: map<BatchItemId, BatchItem>, code: Code)
  {
    forall b | b in BatchesOf(batches, code) && code in sessions && batches[b].track in sessions[code].targets ::
      |KeptBefore(batches, batchItems, b)| < sessions[code].targets[batches[b].track]
  }

  /** Dealt at the right pace: everything decided first, and below target. */
  ghost predicate Paced(db: Db, code: Code) {
    DecidedFirst(db.batches, db.batchItems, code) && DealtShort(db.sessions, db.batches, db.batchItems, code)
  }

  ghost predicate Disciplined(db: Db, code: Code) {
    NoReoffer(db.batches, db.batchItems, code) && Paced(db, code)
  }

  // ------------------------------------------------------------ requests that do not deal

  lemma SameOptionsSameOffers(a: Db, b: Db, code: Code)
    requires Onward(a, b) && NoNewRound(a, b, code)
    ensures NoReoffer(b.batches, b.batchItems, code) <==> NoReoffer(a.batches, a.batchItems, code)
    ensures Offered(b.batchItems, b.batches, code) == Offered(a.batchItems, a.batches, code)
  {
    SameOptions(a, b, code);
    SameOptionsOffered(a, b, code);
  }

  /** An undecided or open option sits in its session's newest batch. */
  lemma UndecidedIsNewest(a: Db, code: Code, x: BatchItemId, b: BatchId)
    requires Newest(a.batches) && DecidedFirst(a.batches, a.batchItems, code)
    requires InSession(a.batchItems, a.batches, code, x) && b in BatchesOf(a.batches, code)
    requires a.batchItems[x].outcome.None? || a.batches[a.batchItems[x].batch].open
    ensures b <= a.batchItems[x].batch
  {
  }

  /** Closing, deciding, passing, joining, ending, and whatever other sessions
      do, keeps a session's pace. */
  lemma QuietPaced(a: Db, b: Db, code: Code)
    requires Newest(a.batches) && Paced(a, code) && Onward(a, b) && NoNewRound(a, b, code) && code in a.sessions
    ensures Paced(b, code)
  {
    SameOptions(a, b, code);
    forall x, c | InSession(b.batchItems, b.batches, code, x) && b.batchItems[x].outcome.None?
                  && c in BatchesOf(b.batches, code)
      ensures c <= b.batchItems[x].batch
    {
      UndecidedIsNewest(a, code, x, c);
    }
    forall c | c in BatchesOf(b.batches, code)
      ensures KeptBefore(b.batches, b.batchItems, c) == KeptBefore(a.batches, a.batchItems, c)
    {
      SameKeptBefore(a, b, code, c);
    }
  }

  lemma SameKeptBefore(a: Db, b: Db, code: Code, c: BatchId)
    requires Newest(a.batches) && DecidedFirst(a.batches, a.batchItems, code) && Onward(a, b) && NoNewRound(a, b, code)
    requires c in BatchesOf(a.batches, code)
    ensures c in b.batches && KeptBefore(b.batches, b.batchItems, c) == KeptBefore(a.batches, a.batchItems, c)
  {
    SameOptions(a, b, code);
    forall x ensures x in KeptBefore(b.batches, b.batchItems, c) <==> x in KeptBefore(a.batches, a.batchItems, c) {
      if InSession(a.batchItems, a.batches, code, x) && a.batchItems[x].batch < c
         && (a.batchItems[x].outcome.None? || a.batches[a.batchItems[x].batch].open) {
        UndecidedIsNewest(a, code, x, c);
      }
    }
  }

  // ------------------------------------------------------------ dealing

  /** Adding a batch: the session's options are the old ones and the new ones. */
  lemma DealtOptionsOf(batches: map<BatchId, Batch>, batchItems: map<BatchItemId, BatchItem>,
                       b: BatchId, row: Batch, first: BatchItemId, chosen: seq<ItemId>)
    requires b !in batches && forall x | x in batchItems :: x < first && batchItems[x].batch in batches
    ensures var dealt, after := batches[b := row], batchItems + NewOptions(b, first, chosen);
            && (forall x | x in batchItems ::
                  after[x] == batchItems[x]
                  && (InSession(after, dealt, row.session, x) <==> InSession(batchItems, batches, row.session, x)))
            && (forall x: BatchItemId | first <= x < first + |chosen| ::
                  InSession(after, dealt, row.session, x) && after[x].batch == b && after[x].item == chosen[x - first]
                    && after[x].outcome.None?)
            && (forall x | x in after :: x in batchItems || first <= x < first + |chosen|)
  {
  }

  lemma DealtNoReoffer(batches: map<BatchId, Batch>, batchItems: map<BatchItemId, BatchItem>,
                       b: BatchId, row: Batch, first: BatchItemId, chosen: seq<ItemId>)
    requires b !in batches && NoRepeats(chosen)
    requires forall x | x in batchItems :: x < first && batchItems[x].batch in batches
    ensures NoReoffer(batches[b := row], batchItems + NewOptions(b, first, chosen), row.session)
            <==> NoReoffer(batches, batchItems, row.session)
                 && forall i | i in chosen :: i !in Offered(batchItems, batches, row.session)
  {
    var dealt, after := batches[b := row], batchItems + NewOptions(b, first, chosen);
    DealtOptionsOf(batches, batchItems, b, row, first, chosen);
    hide NewOptions, InSession;
    if NoReoffer(dealt, after, row.session) {
      ReofferedShows(batches, batchItems, dealt, after, row.session, first, chosen);
    } else if NoReoffer(batches, batchItems, row.session)
        && forall i | i in chosen :: i !in Offered(batchItems, batches, row.session) {
      forall x: BatchItemId, y: BatchItemId | InSession(after, dealt, row.session, x)
                                              && InSession(after, dealt, row.session, y) && x < y
        ensures after[x].item != after[y].item
      {
        OptionThere(after, dealt, row.session, x);
        OptionThere(after, dealt, row.session, y);
        if x < first <= y {
          assert after[x].item in Offered(batchItems, batches, row.session);
          assert chosen[y - first] in chosen;
        }
      }
    }
  }

  lemma OptionThere(batchItems: map<BatchItemId, BatchItem>, batches: map<BatchId, Batch>, code: Code, x: BatchItemId)
    requires InSession(batchItems, batches, code, x)
    ensures x in batchItems
  {
  }

  lemma ReofferedShows(batches: map<BatchId, Batch>, batchItems: map<BatchItemId, BatchItem>,
                       dealt: map<BatchId, Batch>, after: map<BatchItemId, BatchItem>, code: Code,
                       first: BatchItemId, chosen: seq<ItemId>)
    requires NoReoffer(dealt, after, code)
    requires forall x | x in batchItems ::
               x < first && x in after && after[x] == batchItems[x]
               && (InSession(after, dealt, code, x) <==> InSession(batchItems, batches, code, x))
    requires forall x: BatchItemId | first <= x < first + |chosen| ::
               x in after && InSession(after, dealt, code, x) && after[x].item == chosen[x - first]
    ensures NoReoffer(batches, batchItems, code)
    ensures forall i | i in chosen :: i !in Offered(batchItems, batches, code)
  {
    assert forall x | InSession(batchItems, batches, code, x) ::
        InSession(after, dealt, code, x) && after[x] == batchItems[x];
    forall i | i in chosen ensures i !in Offered(batchItems, batches, code) {
      var k :| 0 <= k < |chosen| && chosen[k] == i;
      assert after[first + k].item == i;
      forall x | x in batchItems && InSession(batchItems, batches, code, x) ensures batchItems[x].item != i {
        assert x != first + k;
      }
    }
  }

  lemma DealtDecidedFirst(batches: map<BatchId, Batch>, batchItems: map<BatchItemId, BatchItem>,
                          b: BatchId, row: Batch, first: BatchItemId, chosen: seq<ItemId>)
    requires (forall c | c in batches :: c < b) && DecidedFirst(batches, batchItems, row.session)
    requires OpenBatches(batches, row.session) == {}
    requires forall x | x in batchItems :: x < first && batchItems[x].batch in batches
    ensures DecidedFirst(batches[b := row], batchItems + NewOptions(b, first, chosen), row.session)
            <==> Undecided(batchItems, batches, row.session) == {}
  {
    var dealt, after := batches[b := row], batchItems + NewOptions(b, first, chosen);
    DealtOptionsOf(batches, batchItems, b, row, first, chosen);
    assert b in BatchesOf(dealt, row.session);
    if x :| x in Undecided(batchItems, batches, row.session) {
      assert after[x] == batchItems[x];
    } else {
      forall x | InSession(batchItems, batches, row.session, x) ensures batchItems[x].outcome.Some? {
        assert batchItems[x].batch !in OpenBatches(batches, row.session);
        assert batchItems[x].outcome.None? ==> x in Undecided(batchItems, batches, row.session);
      }
    }
  }

  lemma DealtKeptBefore(batches: map<BatchId, Batch>, batchItems: map<BatchItemId, BatchItem>,
                        b: BatchId, row: Batch, first: BatchItemId, chosen: seq<ItemId>)
    requires forall c | c in batches :: c < b
    requires forall x | x in batchItems :: x < first && batchItems[x].batch in batches
    ensures var dealt, after := batches[b := row], batchItems + NewOptions(b, first, chosen);
            && KeptBefore(dealt, after, b) == Kept(batchItems, batches, row.session, row.track)
            && forall c | c in batches :: KeptBefore(dealt, after, c) == KeptBefore(batches, batchItems, c)
  {
    var dealt, after := batches[b := row], batchItems + NewOptions(b, first, chosen);
    forall x ensures x in KeptBefore(dealt, after, b) <==> x in Kept(batchItems, batches, row.session, row.track) {
    }
    forall c | c in batches ensures KeptBefore(dealt, after, c) == KeptBefore(batches, batchItems, c) {
      forall x ensures x in KeptBefore(dealt, after, c) <==> x in KeptBefore(batches, batchItems, c) {
      }
    }
  }

  /** A deal at the right pace: nothing is left undecided, and the track is
      short of its target. */
  ghost predicate TimelyDeal(db: Db, code: Code, track: Track)
    requires code in db.sessions && track in db.sessions[code].targets
  {
    && Undecided(db.batchItems, db.batches, code) == {}
    && |Kept(db.batchItems, db.batches, code, track)| < db.sessions[code].targets[track]
  }

  ghost predicate NewToSession(db: Db, code: Code, chosen: seq<ItemId>) {
    forall i | i in chosen :: i !in Offered(db.batchItems, db.batches, code)
  }

  /** Dealing keeps offers distinct exactly when the items are new, and the pace
      exactly when the deal is timely. */
  lemma DealtDisciplined(db: Db, after: Db, code: Code, track: Track, chosen: seq<ItemId>)
    requires IsDealt(db, after, code, track, chosen)
    ensures NoReoffer(after.batches, after.batchItems, code)
            <==> NoReoffer(db.batches, db.batchItems, code) && NewToSession(db, code, chosen)
    ensures Paced(db, code) ==> (Paced(after, code) <==> TimelyDeal(db, code, track))
  {
    hide NoReoffer, DecidedFirst, KeptBefore, Kept, Undecided, Offered, NewOptions, NextSeq, SeqsOf;
    var b, row := db.nextBatch, after.batches[db.nextBatch];
    DealtNoReoffer(db.batches, db.batchItems, b, row, db.nextBatchItem, chosen);
    DealtKeptBefore(db.batches, db.batchItems, b, row, db.nextBatchItem, chosen);
    assert after.batches == db.batches[b := row] && row.session == code && row.track == track;
    if Paced(db, code) {
      DealtDecidedFirst(db.batches, db.batchItems, b, row, db.nextBatchItem, chosen);
      assert forall c :: c in BatchesOf(after.batches, code) <==> c == b || c in BatchesOf(db.batches, code);
    }
  }

  /** The pass before a deal keeps the pace, and changes no offer. */
  lemma PassedPaced(db: Db, code: Code)
    requires Newest(db.batches) && code in db.sessions
    ensures var passed := PassAll(db, Undecided(db.batchItems, db.batches, code));
            && (Paced(db, code) ==> Paced(passed, code))
            && (NoReoffer(passed.batches, passed.batchItems, code) <==> NoReoffer(db.batches, db.batchItems, code))
  {
    hide Paced, Undecided;
    var ids := Undecided(db.batchItems, db.batches, code);
    UndecidedIsPending(db, code);
    DecidedOnward(db, PassAll(db, ids), ids);
    SameOptionsSameOffers(db, PassAll(db, ids), code);
    if Paced(db, code) {
      QuietPaced(db, PassAll(db, ids), code);
    }
  }

  // ------------------------------------------------------------ starting over

  /** A start that would deal again: its session is voting, between batches. */
  predicate StartsOver(db: Db, a: Action, code: Code) {
    && a.Start? && a.code == code
    && code in db.sessions
    && HostGate(db, code, a.account, a.now).Admitted?
    && db.sessions[code].status == Voting
    && db.sessions[code].collection.Some?
    && OpenBatches(db.batches, code) == {}
  }

  /** A start over that deals something already offered. */
  ghost predicate DealsAgain(db: Db, a: Action, code: Code) {
    StartsOver(db, a, code) && !NewToSession(db, code, FirstDeal(db, code))
  }

  /** A start over that deals while something is undecided, or for a track that
      has met its target. */
  ghost predicate DealsTooSoon(db: Db, a: Action, code: Code) {
    && StartsOver(db, a, code) && FirstDeal(db, code) != []
    && !TimelyDeal(db, code, FirstTrack(db.sessions[code].targets).value)
  }

  lemma FirstDealHasTrack(db: Db, code: Code)
    requires code in db.sessions && FirstDeal(db, code) != []
    ensures FirstTrack(db.sessions[code].targets).Some?
  {
  }

  lemma LobbyIsFresh(db: Db, code: Code)
    requires Rounds(db.sessions, db.batches) && code in db.sessions && db.sessions[code].status == Lobby
    ensures forall x :: !InSession(db.batchItems, db.batches, code, x)
    ensures BatchesOf(db.batches, code) == {} && Undecided(db.batchItems, db.batches, code) == {}
    ensures Offered(db.batchItems, db.batches, code) == {}
    ensures forall t :: Kept(db.batchItems, db.batches, code, t) == {}
  {
  }

  /** What next-batch deals, and what a start deals in a lobby, is fair; a start
      that deals is otherwise one over. */
  lemma DealsFair(db: Db, a: Action, code: Code)
    requires Inv(db) && code in db.sessions && DealOf(db, a, code).Some?
    requires var (track, chosen) := DealOf(db, a, code).value; Dealable(DealtFrom(db, a, code), code, track, chosen)
    ensures var (track, chosen) := DealOf(db, a, code).value;
            var from := DealtFrom(db, a, code);
            if StartsOver(db, a, code)
            then from == db && chosen == FirstDeal(db, code) && FirstTrack(db.sessions[code].targets) == Some(track)
            else NewToSession(from, code, chosen) && TimelyDeal(from, code, track)
  {
    hide Refs, Targets, Rosters, Newest, Sizes, Sourced;
    hide DealOrder, Reported, Tallies, Ballots, Counters, NoneOverdue;
    hide HostGate, NextBatchAssembly, FirstTrack, FirstDeal, Undecided, Offered, Kept, PassAll;
    AdmittedIsLive(db, code, a.account, a.now);
    LiveHasFirstTrack(db, code);
    if a.Start? {
      if db.sessions[code].status == Lobby {
        LobbyIsFresh(db, code);
        TargetsPositive(db, code);
      }
    } else {
      hide Rounds;
      AssemblyFinds(db, code, TRACK_ORDER);
      var (track, chosen) := NextBatchAssembly(db, code);
      PassedNoneUndecided(db, code);
      AssembledIsNew(db, code, track.value, chosen);
      PassSpares(db, Undecided(db.batchItems, db.batches, code));
    }
  }

  lemma TargetsPositive(db: Db, code: Code)
    requires Targets(db.sessions) && code in db.sessions
    ensures forall t | t in db.sessions[code].targets :: db.sessions[code].targets[t] > 0
  {
  }

  /** One request, exactly: the pace is lost by a start over that deals too soon,
      distinct offers by one that deals again, and by nothing else. */
  lemma StepDisciplined(db: Db, a: Action, code: Code)
    requires Inv(db) && code in db.sessions
    ensures var after := Step(db, a).0;
            && (Paced(db, code) ==> (Paced(after, code) <==> !DealsTooSoon(db, a, code)))
            && (NoReoffer(after.batches, after.batchItems, code)
                <==> NoReoffer(db.batches, db.batchItems, code) && !DealsAgain(db, a, code))
  {
    hide Refs, Targets, Rosters, Rounds, Newest, Sizes, Sourced;
    hide DealOrder, Reported, Tallies, Ballots, Counters, NoneOverdue;
    hide Paced, NoReoffer, Step, Onward, NoNewRound, StartsOver, TimelyDeal, NewToSession;
    hide FirstDeal, DealtFrom, FirstTrack, Offered;
    StepDeals(db, a, code);
    match DealOf(db, a, code)
    case None =>
      SameOptionsSameOffers(db, Step(db, a).0, code);
      NoDealNotOver(db, a, code);
      NothingIsNew(db, code);
      if Paced(db, code) {
        QuietPaced(db, Step(db, a).0, code);
      }
    case Some(d) =>
      hide IsDealt;
      OfDealt(DealtFrom(db, a, code), Step(db, a).0, code, d.0, d.1);
      DealsFair(db, a, code);
      FromPaced(db, a, code);
      DealtDisciplined(DealtFrom(db, a, code), Step(db, a).0, code, d.0, d.1);
  }

  lemma NothingIsNew(db: Db, code: Code)
    ensures NewToSession(db, code, [])
  {
  }

  lemma OfDealt(db: Db, after: Db, code: Code, track: Track, chosen: seq<ItemId>)
    requires IsDealt(db, after, code, track, chosen)
    ensures Dealable(db, code, track, chosen)
  {
  }

  lemma FromPaced(db: Db, a: Action, code: Code)
    requires Newest(db.batches) && code in db.sessions
    ensures var from := DealtFrom(db, a, code);
            && (Paced(db, code) ==> Paced(from, code))
            && (NoReoffer(from.batches, from.batchItems, code) <==> NoReoffer(db.batches, db.batchItems, code))
  {
    hide Paced, Undecided, PassAll, NoReoffer;
    PassedPaced(db, code);
  }

  lemma NoDealNotOver(db: Db, a: Action, code: Code)
    requires code in db.sessions && DealOf(db, a, code).None?
    ensures StartsOver(db, a, code) ==> FirstDeal(db, code) == []
  {
    hide HostGate, FirstDeal, NextBatchAssembly;
  }

  // ------------------------------------------------------------ runs

  ghost predicate NeverTooSoon(db: Db, actions: seq<Action>, code: Code) {
    forall n | 0 <= n < |actions| :: !DealsTooSoon(Run(db, actions[..n]), actions[n], code)
  }

  ghost predicate NeverDealsAgain(db: Db, actions: seq<Action>, code: Code) {
    forall n | 0 <= n < |actions| :: !DealsAgain(Run(db, actions[..n]), actions[n], code)
  }

  lemma UndealtDisciplined(db: Db, code: Code)
    requires BatchesOf(db.batches, code) == {}
    ensures Disciplined(db, code) && NoReoffer(db.batches, db.batchItems, code)
  {
    forall x ensures !InSession(db.batchItems, db.batches, code, x) {
      if x in db.batchItems {
        assert db.batchItems[x].batch !in BatchesOf(db.batches, code);
      }
    }
  }

  /** A session not there yet has nothing dealt. */
  lemma UnknownUndealt(db: Db, code: Code)
    requires Refs(db) && code !in db.sessions
    ensures BatchesOf(db.batches, code) == {}
  {
  }

  lemma FoundedEmpty(db: Db, a: Action, code: Code)
    requires Inv(db) && code !in db.sessions
    ensures BatchesOf(Step(db, a).0.batches, code) == {}
  {
    hide Targets, Rosters, Rounds, Newest, Sizes, Sourced;
    hide DealOrder, Reported, Tallies, Ballots, Counters, NoneOverdue;
    UnknownUndealt(db, code);
    hide Refs;
    if EditsLibrary(a) {
    } else {
      NoSessionNotDealt(db, a, code);
    }
  }

  lemma NoSessionNotDealt(db: Db, a: Action, code: Code)
    requires code !in db.sessions && BatchesOf(db.batches, code) == {} && !EditsLibrary(a)
    ensures BatchesOf(Step(db, a).0.batches, code) == {}
  {
    hide Step, Steady;
    if MayDeal(a, code) {
      UnknownTurned(db, a, code);
    } else {
      StepUnmoved(db, a, code);
    }
  }

  lemma UnknownTurned(db: Db, a: Action, code: Code)
    requires code !in db.sessions && MayDeal(a, code)
    ensures Step(db, a).0 == db
  {
  }

  lemma StepDisciplinedAny(db: Db, a: Action, code: Code)
    requires Inv(db)
    ensures var after := Step(db, a).0;
            && (Paced(db, code) ==> (Paced(after, code) <==> !DealsTooSoon(db, a, code)))
            && (NoReoffer(after.batches, after.batchItems, code)
                <==> NoReoffer(db.batches, db.batchItems, code) && !DealsAgain(db, a, code))
  {
    hide Step, Paced, NoReoffer;
    if code !in db.sessions {
      UnknownUndealt(db, code);
      UndealtDisciplined(db, code);
      hide Inv;
      FoundedEmpty(db, a, code);
      UndealtDisciplined(Step(db, a).0, code);
    } else {
      hide Inv, DealsAgain, DealsTooSoon;
      StepDisciplined(db, a, code);
    }
  }

  /** A session has been dealt no item twice exactly when none of its starts
      over dealt an item offered before. */
  lemma {:induction false} NoReofferMeans(actions: seq<Action>, code: Code)
    ensures var db := Reached(actions);
            NoReoffer(db.batches, db.batchItems, code) <==> NeverDealsAgain(EMPTY_DB, actions, code)
    decreases |actions|
  {
    hide Inv, NoReoffer, Paced, Step, DealsAgain, DealsTooSoon, Run;
    if actions == [] {
      StartsEmpty();
      UndealtDisciplined(EMPTY_DB, code);
    } else {
      var init, last := actions[..|actions| - 1], |actions| - 1;
      NoReofferMeans(init, code);
      assert forall n | 0 <= n < last :: init[..n] == actions[..n];
      assert actions[..last] == init;
      ReachedKeeps(init);
      RunUnfolds(EMPTY_DB, actions);
      StepDisciplinedAny(Reached(init), actions[last], code);
    }
  }

  ghost predicate PacedThroughout(actions: seq<Action>, code: Code) {
    forall n | 0 <= n <= |actions| :: Paced(Reached(actions[..n]), code)
  }

  /** A session is dealt at the right pace throughout exactly when none of its
      starts over deals too soon. */
  lemma {:induction false} PacedThroughoutMeans(actions: seq<Action>, code: Code)
    ensures PacedThroughout(actions, code) <==> NeverTooSoon(EMPTY_DB, actions, code)
    decreases |actions|
  {
    hide Inv, NoReoffer, Paced, Step, DealsAgain, DealsTooSoon, Run;
    if actions == [] {
      StartsEmpty();
      UndealtDisciplined(EMPTY_DB, code);
      assert actions[..0] == actions;
    } else {
      var init, last := actions[..|actions| - 1], |actions| - 1;
      PacedThroughoutMeans(init, code);
      assert forall n | 0 <= n <= last :: init[..n] == actions[..n];
      assert actions[..last] == init && actions[..|actions|] == actions;
      ReachedKeeps(init);
      RunUnfolds(EMPTY_DB, actions);
      StepDisciplinedAny(Reached(init), actions[last], code);
    }
  }

  /** If the request starts voting over, it deals fairly or not at all: only new
      items, with everything decided, for a track below target. */
  ghost predicate FairIfOver(db: Db, a: Action, code: Code) {
    StartsOver(db, a, code) && FirstDeal(db, code) != [] ==>
      && NewToSession(db, code, FirstDeal(db, code))
      && FirstTrack(db.sessions[code].targets).Some?
      && TimelyDeal(db, code, FirstTrack(db.sessions[code].targets).value)
  }

  lemma FairMeans(db: Db, a: Action, code: Code)
    ensures FairIfOver(db, a, code) <==> !DealsAgain(db, a, code) && !DealsTooSoon(db, a, code)
  {
    hide HostGate, TimelyDeal, FirstTrack, Offered, PoolOf, AssembleBatch;
    if StartsOver(db, a, code) && FirstDeal(db, code) != [] {
      FirstDealHasTrack(db, code);
    }
  }

  lemma ShorterNeverDealsAgain(actions: seq<Action>, code: Code)
    ensures NeverDealsAgain(EMPTY_DB, actions, code) ==>
            forall n | 0 <= n <= |actions| :: NeverDealsAgain(EMPTY_DB, actions[..n], code)
  {
    hide Run, DealsAgain;
    forall n, m | 0 <= m < n <= |actions| ensures actions[..n][..m] == actions[..m] && actions[..n][m] == actions[m] {
    }
  }

  /** The runs that keep a session's whole discipline throughout are exactly
      those in which each of its starts over deals fairly or not at all. */
  lemma DisciplinedThroughout(actions: seq<Action>, code: Code)
    ensures (forall n | 0 <= n <= |actions| :: Disciplined(Reached(actions[..n]), code))
            <==> forall n | 0 <= n < |actions| :: FairIfOver(Reached(actions[..n]), actions[n], code)
  {
    hide Run, NoReoffer, Paced, FairIfOver, DealsAgain, DealsTooSoon;
    PacedThroughoutMeans(actions, code);
    ShorterNeverDealsAgain(actions, code);
    assert actions[..|actions|] == actions;
    forall n | 0 <= n <= |actions|
      ensures var db := Reached(actions[..n]);
              NoReoffer(db.batches, db.batchItems, code) <==> NeverDealsAgain(EMPTY_DB, actions[..n], code)
    {
      NoReofferMeans(actions[..n], code);
    }
    forall n | 0 <= n < |actions|
      ensures var db := Reached(actions[..n]);
              FairIfOver(db, actions[n], code)
              <==> !DealsAgain(db, actions[n], code) && !DealsTooSoon(db, actions[n], code)
    {
      FairMeans(Reached(actions[..n]), actions[n], code);
    }
    if forall n | 0 <= n <= |actions| :: Disciplined(Reached(actions[..n]), code) {
      assert Disciplined(Reached(actions), code);
    }
  }
}
