/** What may be dealt and what is dealt, told on the rows: which items are in a
    track's pool, which track a batch goes to, and how full it is. */
module Dealings {
  import opened Prelude
  import opened SessionLogic
  import opened Tables
  import opened Pool
  import opened Handlers
  import opened Invariants
  import opened Preservation
  import opened Runs
  import opened History
  import opened Discipline
  import opened Effects

  // ------------------------------------------------------------ what may be dealt

  /** The items that may be dealt to a track of a collection: not archived, and
      of the track's meal, unless the track takes any. */
  function Dishes(items: map<ItemId, Item>, collection: Option<nat>, t: Track): set<ItemId> {
    set i | i in items && !items[i].archived && Some(items[i].collection) == collection
            && (t == Picks || t in items[i].types)
  }

  /** A track's pool lists exactly those, each once; so an archived item is in none. */
  lemma PoolIsDishes(items: map<ItemId, Item>, nextItem: nat, s: Session, t: Track)
    requires forall i | i in items :: i < nextItem
    ensures var pool := PoolOf(items, nextItem, s, t);
            && NoRepeats(pool)
            && (forall i :: i in pool <==> i in Dishes(items, s.collection, t))
            && (forall i | i in items && items[i].archived :: i !in pool)
  {
    PoolIsEligible(items, nextItem, s, t);
  }

  /** The items dealt to a session before. */
  function DealtItems(db: Db, code: Code): set<ItemId> {
    set x | x in db.batchItems && db.batchItems[x].batch in db.batches
            && db.batches[db.batchItems[x].batch].session == code :: db.batchItems[x].item
  }

  /** Session, collection, archive mark and meal fit. */
  ghost predicate Fits(db: Db, after: Db, x: BatchItemId)
    requires x in after.batchItems
  {
    var row := after.batchItems[x];
    && row.batch in after.batches && row.item in db.items
    && var batch := after.batches[row.batch];
       && batch.session in db.sessions
       && !db.items[row.item].archived
       && Some(db.items[row.item].collection) == db.sessions[batch.session].collection
       && (batch.track == Picks || batch.track in db.items[row.item].types)
  }

  lemma BatchesHaveSessions(db: Db, a: Action, b: BatchId)
    requires Inv(db) && b in Step(db, a).0.batches
    ensures Step(db, a).0.batches[b].session in db.sessions
  {
    hide Inv, Step;
    var code := Step(db, a).0.batches[b].session;
    assert b in BatchesOf(Step(db, a).0.batches, code);
    if code !in db.sessions {
      FoundedEmpty(db, a, code);
      assert false;
    }
  }

  lemma NoDealNoRow(db: Db, after: Db, code: Code, x: BatchItemId)
    requires Onward(db, after) && NoNewRound(db, after, code) && InSession(after.batchItems, after.batches, code, x)
    ensures x in db.batchItems
  {
    assert after.batchItems[x].batch in BatchesOf(after.batches, code);
  }

  lemma DealtRow(db: Db, after: Db, code: Code, track: Track, chosen: seq<ItemId>, x: BatchItemId)
    requires IsDealt(db, after, code, track, chosen) && InSession(after.batchItems, after.batches, code, x)
    ensures x in db.batchItems
            || (after.batchItems[x].item in chosen && after.batches[after.batchItems[x].batch].track == track)
  {
    hide NextSeq, SeqsOf, Dealable;
  }

  lemma NextDealOf(db: Db, a: Action, code: Code)
    requires DealOf(db, a, code).Some? && !a.Start?
    ensures NextBatchAssembly(db, code) == (Some(DealOf(db, a, code).value.0), DealOf(db, a, code).value.1)
    ensures Assembles(db, code, DealOf(db, a, code).value.0, DealOf(db, a, code).value.1)
  {
    hide HostGate, NextBatchAssembly, Assembles;
    AssemblyFinds(db, code, TRACK_ORDER);
  }

  /** What a request deals is on the shelf, as `Dishes` has it. */
  lemma DealIsDishes(db: Db, a: Action, code: Code)
    requires Refs(db) && DealOf(db, a, code).Some?
    ensures forall i | i in DealOf(db, a, code).value.1 ::
              i in Dishes(db.items, db.sessions[code].collection, DealOf(db, a, code).value.0)
  {
    hide HostGate, PoolOf, AssembleBatch, Dishes;
    var (track, chosen) := DealOf(db, a, code).value;
    PoolIsDishes(db.items, db.nextItem, db.sessions[code], track);
    var pool := PoolOf(db.items, db.nextItem, db.sessions[code], track);
    if a.Start? {
      FirstDealHasTrack(db, code);
      FirstDealOf(db, code);
      AssembleBatchDeals(pool, {}, BATCH_SIZE);
    } else {
      NextDealOf(db, a, code);
      AssembleBatchDeals(pool, Offered(db.batchItems, db.batches, code), BATCH_SIZE);
    }
  }

  /** Over every request: an option it adds is of an item on the shelf before it,
      not archived, of the session's collection, and of the batch's meal. */
  lemma OnlyDishesAreDealt(db: Db, a: Action)
    requires Inv(db)
    ensures forall x | x in Step(db, a).0.batchItems && x !in db.batchItems :: Fits(db, Step(db, a).0, x)
  {
    hide Inv, Fits, Step;
    forall x | x in Step(db, a).0.batchItems && x !in db.batchItems ensures Fits(db, Step(db, a).0, x) {
      NewRowFits(db, a, x);
    }
  }

  lemma NewRowFits(db: Db, a: Action, x: BatchItemId)
    requires Inv(db) && x in Step(db, a).0.batchItems
    ensures x in db.batchItems || Fits(db, Step(db, a).0, x)
  {
    var after := Step(db, a).0;
    StepKeeps(db, a);
    WholeRefs(after);
    WholeRefs(db);
    RowHasBatch(after, x);
    var b := after.batchItems[x].batch;
    var code := after.batches[b].session;
    hide Step, Inv, Refs, IsDealt, NoNewRound, Onward;
    BatchesHaveSessions(db, a, b);
    StepDeals(db, a, code);
    hide DealOf, DealtFrom, Fits, Dishes;
    if DealOf(db, a, code).None? {
      NoDealNoRow(db, after, code, x);
    } else {
      DealtRowFits(db, a, code, x);
    }
  }

  lemma DealtRowFits(db: Db, a: Action, code: Code, x: BatchItemId)
    requires Refs(db) && code in db.sessions && DealOf(db, a, code).Some?
    requires InSession(Step(db, a).0.batchItems, Step(db, a).0.batches, code, x)
    requires var d := DealOf(db, a, code).value; IsDealt(DealtFrom(db, a, code), Step(db, a).0, code, d.0, d.1)
    ensures x in db.batchItems || Fits(db, Step(db, a).0, x)
  {
    var d := DealOf(db, a, code).value;
    hide Step, IsDealt, Refs;
    DealtRow(DealtFrom(db, a, code), Step(db, a).0, code, d.0, d.1, x);
    DealtFromRows(db, a, code);
    DealIsDishes(db, a, code);
    hide DealOf, DealtFrom;
  }

  lemma DealtFromRows(db: Db, a: Action, code: Code)
    ensures DealtFrom(db, a, code).batchItems.Keys == db.batchItems.Keys
  {
    hide Undecided;
  }

  lemma RowHasBatch(db: Db, x: BatchItemId)
    requires Refs(db) && x in db.batchItems
    ensures db.batchItems[x].batch in db.batches
  {
  }

  // ------------------------------------------------------------ which track

  /** The order the tracks are taken in. */
  function Rank(t: Track): nat {
    match t
    case Breakfast => 0
    case Lunch => 1
    case Dinner => 2
    case Picks => 3
  }

  /** A start deals to the first track asked for, in the order of the day. */
  lemma StartTrackIsFirst(targets: map<Track, nat>, t: Track)
    ensures FirstTrack(targets) == Some(t)
            <==> t in targets && targets[t] > 0
                 && forall u | Rank(u) < Rank(t) :: u in targets ==> targets[u] == 0
  {
    Unrolled(targets);
  }

  lemma Unrolled(targets: map<Track, nat>)
    ensures FirstTrack(targets)
            == if Breakfast in targets && targets[Breakfast] > 0 then Some(Breakfast)
               else if Lunch in targets && targets[Lunch] > 0 then Some(Lunch)
               else if Dinner in targets && targets[Dinner] > 0 then Some(Dinner)
               else if Picks in targets && targets[Picks] > 0 then Some(Picks)
               else None
  {
    OrderOfTheDay();
    assert FirstTrack(targets, [Picks]) == if Picks in targets && targets[Picks] > 0 then Some(Picks) else None;
    assert FirstTrack(targets, [Dinner, Picks])
        == if Dinner in targets && targets[Dinner] > 0 then Some(Dinner) else FirstTrack(targets, [Picks]);
    assert FirstTrack(targets, [Lunch, Dinner, Picks])
        == if Lunch in targets && targets[Lunch] > 0 then Some(Lunch) else FirstTrack(targets, [Dinner, Picks]);
  }

  lemma OrderOfTheDay()
    ensures TRACK_ORDER[0] == Breakfast && TRACK_ORDER[1..] == [Lunch, Dinner, Picks]
    ensures [Lunch, Dinner, Picks][1..] == [Dinner, Picks] && [Dinner, Picks][1..] == [Picks]
    ensures [Picks][1..] == []
  {
  }

  /** Options of the session's track kept so far, by everybody or by the host. */
  function KeptSoFar(db: Db, code: Code, t: Track): set<BatchItemId> {
    set x | x in db.batchItems && db.batchItems[x].batch in db.batches
            && db.batches[db.batchItems[x].batch].session == code && db.batches[db.batchItems[x].batch].track == t
            && (db.batchItems[x].outcome == Some(KeptUnanimous) || db.batchItems[x].outcome == Some(KeptHost))
  }

  /** Still to be dealt to a track. */
  function NewDishes(db: Db, code: Code, t: Track): set<ItemId>
    requires code in db.sessions
  {
    Dishes(db.items, db.sessions[code].collection, t) - DealtItems(db, code)
  }

  /** The track is short of its target, and something new is left for it. */
  predicate Wants(db: Db, code: Code, t: Track)
    requires code in db.sessions
  {
    && t in db.sessions[code].targets && |KeptSoFar(db, code, t)| < db.sessions[code].targets[t]
    && NewDishes(db, code, t) != {}
  }

  /** The next batch goes to the first track, in the order of the day, that wants
      one; and there is none exactly when no track does. */
  lemma NextTrackIsFirst(db: Db, code: Code)
    requires Refs(db) && code in db.sessions
    ensures forall t :: NextBatchAssembly(db, code).0 == Some(t)
                        <==> Wants(db, code, t) && forall u | Rank(u) < Rank(t) :: !Wants(db, code, u)
    ensures NextBatchAssembly(db, code).0 == None <==> forall t :: !Wants(db, code, t)
  {
    AssemblyFinds(db, code, TRACK_ORDER);
    var (track, chosen) := NextBatchAssembly(db, code);
    hide Wants, Assembles, NextBatchAssembly, Rank, PassedOver;
    forall t ensures Wants(db, code, t) <==> exists c :: Assembles(db, code, t, c) {
      WantsAssembles(db, code, t);
    }
    forall t ensures t in TRACK_ORDER {
      EveryTrackListed(t);
    }
    if track.Some? {
      assert Wants(db, code, track.value);
      forall u | Rank(u) < Rank(track.value) ensures !Wants(db, code, u) {
        PassedOverMeans(track.value, u);
      }
      forall t | Rank(t) == Rank(track.value) ensures t == track.value {
        SameRank(t, track.value);
      }
    }
  }

  lemma PassedOverMeans(track: Track, t: Track)
    ensures PassedOver(TRACK_ORDER, track, t) <==> Rank(t) < Rank(track)
  {
    OrderOfTheDay();
    assert PassedOver([Picks], track, t) <==> track != Picks && t == Picks;
    assert PassedOver([Dinner, Picks], track, t) <==> track != Dinner && (t == Dinner || PassedOver([Picks], track, t));
    assert PassedOver([Lunch, Dinner, Picks], track, t)
        <==> track != Lunch && (t == Lunch || PassedOver([Dinner, Picks], track, t));
  }

  lemma WantsAssembles(db: Db, code: Code, t: Track)
    requires Refs(db) && code in db.sessions
    ensures Wants(db, code, t) <==> exists c :: Assembles(db, code, t, c)
  {
    var pool, offered := PoolOf(db.items, db.nextItem, db.sessions[code], t), Offered(db.batchItems, db.batches, code);
    PoolIsDishes(db.items, db.nextItem, db.sessions[code], t);
    AssembleBatchDeals(pool, offered, BATCH_SIZE);
    assert Kept(db.batchItems, db.batches, code, t) == KeptSoFar(db, code, t);
    DealtIsOffered(db, code);
    hide Kept, KeptSoFar, Offered, DealtItems, Dishes, PoolOf, AssembleBatch;
    var c := AssembleBatch(pool, offered);
    if i :| i in NewDishes(db, code, t) {
      assert i in pool && i !in offered;
    } else {
      assert forall i | i in pool ::
          i in Dishes(db.items, db.sessions[code].collection, t) && i !in NewDishes(db, code, t);
    }
    if Wants(db, code, t) {
      assert Assembles(db, code, t, c);
    }
  }

  lemma DealtIsOffered(db: Db, code: Code)
    ensures DealtItems(db, code) == Offered(db.batchItems, db.batches, code)
  {
    forall i ensures i in DealtItems(db, code) <==> i in Offered(db.batchItems, db.batches, code) {
      if x :| x in db.batchItems && InSession(db.batchItems, db.batches, code, x) && db.batchItems[x].item == i {
        assert db.batchItems[x].batch in db.batches;
      }
    }
  }

  // ------------------------------------------------------------ a new round

  /** The options of `after` that `before` did not have. */
  function NewRows(before: Db, after: Db): set<BatchItemId> {
    set x | x in after.batchItems && x !in before.batchItems
  }

  /** One batch more, for track `t`: open, numbered next after the others of its
      session, from 1 on, with between one and fifteen of the `menu` items on it, each once
      and all of them unless it is full; they come unreported. */
  ghost predicate NewRound(before: Db, after: Db, code: Code, t: Track, menu: set<ItemId>) {
    var b := before.nextBatch;
    && b !in before.batches && b in after.batches && after.batches == before.batches[b := after.batches[b]]
    && after.batches[b].session == code && after.batches[b].track == t && after.batches[b].open
    && (forall c | c in before.batches && before.batches[c].session == code ::
          before.batches[c].seq_ < after.batches[b].seq_)
    && (after.batches[b].seq_ == 1 || exists c ::
          c in before.batches && before.batches[c].session == code
            && before.batches[c].seq_ + 1 == after.batches[b].seq_)
    && (forall x | x in before.batchItems :: x in after.batchItems && after.batchItems[x] == before.batchItems[x])
    && (forall x | x in NewRows(before, after) ::
          var row := after.batchItems[x];
          row.batch == b && row.item in menu && row.yes == 0 && row.no == 0 && row.outcome == None)
    && (forall x, y | x in NewRows(before, after) && y in NewRows(before, after) && x < y ::
          after.batchItems[x].item != after.batchItems[y].item
            && after.batchItems[x].sortOrder < after.batchItems[y].sortOrder)
    && 0 < |NewRows(before, after)| <= 15
    && (|NewRows(before, after)| < 15 ==>
          forall i | i in menu :: exists x :: x in NewRows(before, after) && after.batchItems[x].item == i)
  }

  lemma {:induction false} Interval(first: nat, n: nat) returns (s: set<nat>)
    ensures (forall k: nat :: k in s <==> first <= k < first + n) && |s| == n
  {
    if n == 0 {
      s := {};
    } else {
      s := Interval(first, n - 1);
      s := s + {first + n - 1};
    }
  }

  lemma NewRowsAre(before: Db, code: Code, t: Track, chosen: seq<ItemId>)
    requires Refs(before)
    ensures var after, first := OpenRound(before, code, t, chosen), before.nextBatchItem;
            && (forall x :: x in NewRows(before, after) <==> first <= x < first + |chosen|)
            && (forall x | x in NewRows(before, after) ::
                  after.batchItems[x] == BatchItem(before.nextBatch, chosen[x - first], x - first, 0, 0, None))
            && (forall x | x in before.batchItems ::
                x in after.batchItems && after.batchItems[x] == before.batchItems[x])
            && |NewRows(before, after)| == |chosen|
  {
    hide NextSeq, SeqsOf;
    var after, first := OpenRound(before, code, t, chosen), before.nextBatchItem;
    var s := Interval(first, |chosen|);
    forall x: BatchItemId ensures x in NewRows(before, after) <==> x in s {
      assert x in after.batchItems <==> x in before.batchItems || x in NewOptions(before.nextBatch, first, chosen);
    }
    assert NewRows(before, after) == s;
  }

  lemma NumberedLast(before: Db, code: Code, t: Track, chosen: seq<ItemId>)
    ensures var after, b := OpenRound(before, code, t, chosen), before.nextBatch;
            && b in after.batches && after.batches == before.batches[b := after.batches[b]]
            && after.batches[b].session == code && after.batches[b].track == t && after.batches[b].open
            && (forall c | c in before.batches && before.batches[c].session == code ::
                  before.batches[c].seq_ < after.batches[b].seq_)
            && (after.batches[b].seq_ == 1 || exists c ::
                  c in before.batches && before.batches[c].session == code
                  && before.batches[c].seq_ + 1 == after.batches[b].seq_)
  {
    hide NewOptions, NextSeq;
    forall c | c in before.batches && before.batches[c].session == code
      ensures before.batches[c].seq_ < NextSeq(SeqsOf(before.batches, code))
    {
      assert before.batches[c].seq_ in SeqsOf(before.batches, code);
    }
  }

  lemma UnusedId(db: Db)
    requires Refs(db)
    ensures db.nextBatch !in db.batches
  {
  }

  lemma DealtIsRound(before: Db, code: Code, t: Track, chosen: seq<ItemId>, menu: set<ItemId>)
    requires Refs(before) && 0 < |chosen| <= 15 && NoRepeats(chosen)
    requires forall i | i in chosen :: i in menu
    requires |chosen| < 15 ==> forall i | i in menu :: i in chosen
    ensures NewRound(before, OpenRound(before, code, t, chosen), code, t, menu)
  {
    var after, first := OpenRound(before, code, t, chosen), before.nextBatchItem;
    NewRowsAre(before, code, t, chosen);
    NumberedLast(before, code, t, chosen);
    hide OpenRound, NewRows, Refs;
    assert before.nextBatch !in before.batches by { UnusedId(before); }
    if |chosen| < 15 {
      forall i | i in menu ensures exists x :: x in NewRows(before, after) && after.batchItems[x].item == i {
        var k :| 0 <= k < |chosen| && chosen[k] == i;
        assert first + k in NewRows(before, after);
      }
    }
  }

  lemma FifteenAtMost()
    ensures BATCH_SIZE == 15
  {
  }

  // ------------------------------------------------------------ next batch

  /** No batch of the session is open. */
  ghost predicate BetweenBatches(db: Db, code: Code) {
    forall b | b in db.batches && db.batches[b].session == code :: !db.batches[b].open
  }

  /** Every option of the session still without an outcome is passed. */
  ghost predicate PassedOn(db: Db, rows: map<BatchItemId, BatchItem>, code: Code) {
    && rows.Keys == db.batchItems.Keys
    && forall x | x in db.batchItems ::
         rows[x] == if InSession(db.batchItems, db.batches, code, x) && db.batchItems[x].outcome.None?
                    then db.batchItems[x].(outcome := Some(NotKept)) else db.batchItems[x]
  }

  lemma PassAllPasses(db: Db, code: Code)
    requires BetweenBatches(db, code)
    ensures PassedOn(db, PassAll(db, Undecided(db.batchItems, db.batches, code)).batchItems, code)
  {
  }

  /** Next-batch before voting, or with a batch open, does nothing. */
  lemma NextTooEarly(db: Db, code: Code, account: Option<Account>, now: int)
    requires HostAsks(db, code, account, now) && (db.sessions[code].status == Lobby || !BetweenBatches(db, code))
    ensures NextBatch(db, code, account, now) == (db, SeeSession)
  {
    GateOpens(db, code, account, now);
    hide HostGate;
    if b :| b in db.batches && db.batches[b].session == code && db.batches[b].open {
      assert b in OpenBatches(db.batches, code);
    }
  }

  lemma NoneOpenBetween(db: Db, code: Code)
    requires BetweenBatches(db, code)
    ensures OpenBatches(db.batches, code) == {} && OpenBatch(db.batches, code) == None
  {
  }

  /** Between batches it passes whatever the host left undecided; and if no track
      wants anything, that is all. */
  lemma NextOnlyPasses(db: Db, code: Code, account: Option<Account>, now: int)
    requires Refs(db) && HostAsks(db, code, account, now)
    requires db.sessions[code].status == Voting && BetweenBatches(db, code)
    requires forall t :: !Wants(db, code, t)
    ensures var (after, reply) := NextBatch(db, code, account, now);
            && reply == SeeSession && after == db.(batchItems := after.batchItems)
            && PassedOn(db, after.batchItems, code)
  {
    GateOpens(db, code, account, now);
    NoneOpenBetween(db, code);
    NextTrackIsFirst(db, code);
    PassAllPasses(db, code);
    PassSpares(db, Undecided(db.batchItems, db.batches, code));
    hide HostGate, NextBatchAssembly, PassAll, Undecided, Wants, OpenBatch, PassedOn, Refs, BetweenBatches;
  }

  /** Otherwise it also opens a round for the first track that wants one, with
      dishes never dealt to the session before. */
  lemma NextOpensRound(db: Db, code: Code, account: Option<Account>, now: int, t: Track)
    requires Refs(db) && HostAsks(db, code, account, now)
    requires db.sessions[code].status == Voting && BetweenBatches(db, code)
    requires Wants(db, code, t) && forall u | Rank(u) < Rank(t) :: !Wants(db, code, u)
    ensures var (after, reply) := NextBatch(db, code, account, now);
            && reply == SeeSession
            && exists rows ::
                 && PassedOn(db, rows, code)
                 && NewRound(db.(batchItems := rows), after, code, t, NewDishes(db, code, t))
                 && after == db.(batches := after.batches, nextBatch := db.nextBatch + 1,
                                 batchItems := after.batchItems,
                                 nextBatchItem := after.nextBatchItem, activity := db.activity[code := now])
  {
    hide *;
    var passed := PassAll(db, Undecided(db.batchItems, db.batches, code));
    GateOpens(db, code, account, now);
    AdmittedIsLive(db, code, account, now);
    NoneOpenBetween(db, code);
    NextTrackIsFirst(db, code);
    NextDeals(db, code, account, now);
    AssemblyFinds(db, code, TRACK_ORDER);
    var (track, chosen) := NextBatchAssembly(db, code);
    PassAllPasses(db, code);
    PassSpares(db, Undecided(db.batchItems, db.batches, code));
    NextChosen(db, code, t, chosen);
    DealtIsRound(passed, code, t, chosen, NewDishes(db, code, t));
    TouchedRound(passed, OpenRound(passed, code, t, chosen), code, t, NewDishes(db, code, t), now);
    RoundTouches(passed, code, t, chosen);
    TouchShows(OpenRound(passed, code, t, chosen), code, now);
    assert passed == db.(batchItems := passed.batchItems);
  }

  lemma TouchShows(db: Db, code: Code, now: int)
    ensures Touch(db, code, now) == db.(activity := db.activity[code := now])
  {
  }

  lemma TouchedRound(before: Db, after: Db, code: Code, t: Track, menu: set<ItemId>, now: int)
    requires NewRound(before, after, code, t, menu)
    ensures NewRound(before, Touch(after, code, now), code, t, menu)
  {
    assert NewRows(before, Touch(after, code, now)) == NewRows(before, after);
    hide NewRows;
  }

  lemma NextChosen(db: Db, code: Code, t: Track, chosen: seq<ItemId>)
    requires Refs(db) && code in db.sessions && Assembles(db, code, t, chosen)
    ensures 0 < |chosen| <= 15 && NoRepeats(chosen)
    ensures forall i | i in chosen :: i in NewDishes(db, code, t)
    ensures |chosen| < 15 ==> forall i | i in NewDishes(db, code, t) :: i in chosen
  {
    PoolIsDishes(db.items, db.nextItem, db.sessions[code], t);
    AssembleBatchDeals(PoolOf(db.items, db.nextItem, db.sessions[code], t), Offered(db.batchItems, db.batches, code),
                       15);
    DealtIsOffered(db, code);
    FifteenAtMost();
    hide PoolOf, AssembleBatch, Offered, DealtItems, Dishes;
  }

  lemma RoundTouches(db: Db, code: Code, t: Track, chosen: seq<ItemId>)
    ensures var after := OpenRound(db, code, t, chosen);
            after == db.(batches := after.batches, nextBatch := db.nextBatch + 1, batchItems := after.batchItems,
                         nextBatchItem := after.nextBatchItem)
  {
    hide NewOptions, NextSeq, SeqsOf;
  }

  // ------------------------------------------------------------ start

  /** With a batch open, or for a session without a collection, a start only
      starts the voting. */
  lemma StartOnlyStarts(db: Db, code: Code, account: Option<Account>, now: int)
    requires HostAsks(db, code, account, now)
    requires db.sessions[code].collection.None? || !BetweenBatches(db, code)
    ensures StartVoting(db, code, account, now)
            == (db.(sessions := db.sessions[code := db.sessions[code].(status := Voting)],
                    activity := db.activity[code := now]), SeeSession)
  {
    GateOpens(db, code, account, now);
    hide HostGate, PoolOf, AssembleBatch, FirstTrack;
    if b :| b in db.batches && db.batches[b].session == code && db.batches[b].open {
      assert b in OpenBatches(db.batches, code);
    }
  }

  /** Otherwise it deals to the first track asked for, from its whole shelf, and
      is refused with nothing written if that shelf is empty. */
  lemma StartOpensRound(db: Db, code: Code, account: Option<Account>, now: int, t: Track)
    requires Refs(db) && HostAsks(db, code, account, now)
    requires db.sessions[code].collection.Some? && BetweenBatches(db, code)
    requires t in db.sessions[code].targets && db.sessions[code].targets[t] > 0
    requires forall u | Rank(u) < Rank(t) :: u in db.sessions[code].targets ==> db.sessions[code].targets[u] == 0
    ensures var (after, reply) := StartVoting(db, code, account, now);
            var shelf := Dishes(db.items, db.sessions[code].collection, t);
            if shelf == {} then after == db && reply == BadRequest
            else
              && reply == SeeSession && NewRound(db, after, code, t, shelf)
              && after == db.(batches := after.batches, nextBatch := db.nextBatch + 1, batchItems := after.batchItems,
                              nextBatchItem := after.nextBatchItem, activity := db.activity[code := now],
                              sessions := db.sessions[code := db.sessions[code].(status := Voting)])
  {
    var shelf := Dishes(db.items, db.sessions[code].collection, t);
    GateOpens(db, code, account, now);
    NoneOpenBetween(db, code);
    StartTrackIsFirst(db.sessions[code].targets, t);
    hide HostGate, PoolOf, AssembleBatch, FirstTrack, BetweenBatches, OpenBatch, NewRound, OpenRound, Dishes, Rank;
    StartDeals(db, code, account, now);
    FirstDealOf(db, code);
    var chosen := FirstDeal(db, code);
    StartChosen(db, code, t, chosen);
    hide FirstDeal, Refs;
    if chosen != [] {
      DealtIsRound(db, code, t, chosen, shelf);
      RoundTouches(db, code, t, chosen);
      RoundShows(db, code, t, chosen);
      StartedRound(db, OpenRound(db, code, t, chosen), code, t, shelf, now);
    }
  }

  lemma StartedRound(before: Db, after: Db, code: Code, t: Track, menu: set<ItemId>, now: int)
    requires NewRound(before, after, code, t, menu) && code in after.sessions
    ensures NewRound(before, Touch(SetStatus(after, code, Voting), code, now), code, t, menu)
  {
    assert NewRows(before, Touch(SetStatus(after, code, Voting), code, now)) == NewRows(before, after);
    hide NewRows;
  }

  lemma StartChosen(db: Db, code: Code, t: Track, chosen: seq<ItemId>)
    requires Refs(db) && code in db.sessions
    requires chosen == AssembleBatch(PoolOf(db.items, db.nextItem, db.sessions[code], t), {})
    ensures var shelf := Dishes(db.items, db.sessions[code].collection, t);
            && (chosen == [] <==> shelf == {}) && |chosen| <= 15 && NoRepeats(chosen)
            && (forall i | i in chosen :: i in shelf)
            && (|chosen| < 15 ==> forall i | i in shelf :: i in chosen)
  {
    var pool := PoolOf(db.items, db.nextItem, db.sessions[code], t);
    PoolIsDishes(db.items, db.nextItem, db.sessions[code], t);
    AssembleBatchDeals(pool, {}, 15);
    FifteenAtMost();
    hide PoolOf, AssembleBatch, Dishes;
    if chosen != [] {
      assert chosen[0] in chosen;
    }
  }

  // ------------------------------------------------------------ the progress lines

  /** A progress line tells the target, what was kept towards it, what is missing,
      and whether it is met. */
  ghost predicate Tells(db: Db, code: Code, row: Progress)
    requires code in db.sessions
  {
    var kept := |KeptSoFar(db, code, row.track)|;
    && row.track in db.sessions[code].targets && row.target == db.sessions[code].targets[row.track] && row.kept == kept
    && row.remaining == (if kept < row.target then row.target - kept else 0)
    && (row.met <==> kept >= row.target)
  }

  lemma RowTells(db: Db, code: Code, t: Track)
    requires code in db.sessions && t in db.sessions[code].targets
    ensures ProgressRow(db, code, t).track == t && Tells(db, code, ProgressRow(db, code, t))
  {
    assert Kept(db.batchItems, db.batches, code, t) == KeptSoFar(db, code, t);
    hide Kept, KeptSoFar;
  }

  /** The progress shows one line per target, in the order of the day. */
  lemma ProgressTells(db: Db, code: Code)
    requires code in db.sessions
    ensures var rows := TrackProgress(db, code);
            && (forall k | 0 <= k < |rows| :: Tells(db, code, rows[k]))
            && (forall t | t in db.sessions[code].targets :: exists k :: 0 <= k < |rows| && rows[k].track == t)
            && (forall j, k | 0 <= j < k < |rows| :: Rank(rows[j].track) < Rank(rows[k].track))
  {
    hide TrackProgress, Tells, Rank, Lists;
    NoLinesLeft(db, code);
    LinesFrom(db, code, 3);
    LinesFrom(db, code, 2);
    LinesFrom(db, code, 1);
    LinesFrom(db, code, 0);
    assert From(0) == TRACK_ORDER;
    AllListed(db, code, TrackProgress(db, code));
  }

  lemma AllListed(db: Db, code: Code, rows: seq<Progress>)
    requires code in db.sessions && Lists(db, code, rows, 0)
    ensures forall k | 0 <= k < |rows| :: Tells(db, code, rows[k])
    ensures forall t | t in db.sessions[code].targets :: exists k :: 0 <= k < |rows| && rows[k].track == t
    ensures forall j, k | 0 <= j < k < |rows| :: Rank(rows[j].track) < Rank(rows[k].track)
  {
    hide Tells, Rank;
  }

  /** The tracks from rank `n` on. */
  function From(n: nat): seq<Track>
    requires n <= 4
  {
    TRACK_ORDER[n..]
  }

  ghost predicate Lists(db: Db, code: Code, rows: seq<Progress>, n: nat)
    requires code in db.sessions
  {
    && (forall k | 0 <= k < |rows| :: Tells(db, code, rows[k]) && Rank(rows[k].track) >= n)
    && (forall t | t in db.sessions[code].targets && Rank(t) >= n :: exists k :: 0 <= k < |rows| && rows[k].track == t)
    && (forall j, k | 0 <= j < k < |rows| :: Rank(rows[j].track) < Rank(rows[k].track))
  }

  lemma LinesUnfold(db: Db, code: Code, order: seq<Track>)
    requires code in db.sessions && order != []
    ensures TrackProgress(db, code, order)
            == (if order[0] in db.sessions[code].targets then [ProgressRow(db, code, order[0])] else [])
               + TrackProgress(db, code, order[1..])
    ensures TrackProgress(db, code, []) == []
  {
  }

  lemma OneMoreLine(db: Db, code: Code, row: Progress, rest: seq<Progress>, n: nat)
    requires code in db.sessions && Lists(db, code, rest, n + 1) && Tells(db, code, row) && Rank(row.track) == n
    ensures Lists(db, code, [row] + rest, n)
  {
    var rows := [row] + rest;
    hide Tells;
    forall t | t in db.sessions[code].targets && Rank(t) >= n
      ensures exists k :: 0 <= k < |rows| && rows[k].track == t
    {
      if Rank(t) == n {
        SameRank(t, row.track);
        assert rows[0].track == t;
      } else {
        var k :| 0 <= k < |rest| && rest[k].track == t;
        assert rows[k + 1].track == t;
      }
    }
  }

  lemma NoLine(db: Db, code: Code, t: Track, rest: seq<Progress>, n: nat)
    requires code in db.sessions && Lists(db, code, rest, n + 1) && Rank(t) == n && t !in db.sessions[code].targets
    ensures Lists(db, code, rest, n)
  {
    forall u | u in db.sessions[code].targets && Rank(u) >= n ensures Rank(u) >= n + 1 {
      if Rank(u) == n {
        SameRank(t, u);
      }
    }
    hide Tells, Rank;
  }

  lemma SameRank(t: Track, u: Track)
    requires Rank(t) == Rank(u)
    ensures t == u
  {
  }

  lemma RankOf(n: nat)
    requires n < 4
    ensures Rank(TRACK_ORDER[n]) == n && From(n)[0] == TRACK_ORDER[n] && From(n)[1..] == From(n + 1)
  {
  }

  lemma LinesFrom(db: Db, code: Code, n: nat)
    requires code in db.sessions && n < 4 && Lists(db, code, TrackProgress(db, code, From(n + 1)), n + 1)
    ensures Lists(db, code, TrackProgress(db, code, From(n)), n)
  {
    var t, rest := TRACK_ORDER[n], TrackProgress(db, code, From(n + 1));
    RankOf(n);
    LinesUnfold(db, code, From(n));
    hide Lists, Tells, Rank, TrackProgress, ProgressRow;
    if t in db.sessions[code].targets {
      RowTells(db, code, t);
      OneMoreLine(db, code, ProgressRow(db, code, t), rest, n);
    } else {
      NoLine(db, code, t, rest, n);
      assert [] + rest == rest;
    }
  }

  lemma NoLinesLeft(db: Db, code: Code)
    requires code in db.sessions
    ensures Lists(db, code, TrackProgress(db, code, From(4)), 4)
  {
    assert From(4) == [];
  }
}
