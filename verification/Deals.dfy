/** The order items are dealt in. With its collection left alone, and unless its
    voting is started over, a session's batches of a track, one after the other,
    run through the track's shuffled pool in pool order; they pass over an item
    only if the session was offered it before, so with a single track they deal
    the pool from its top without a gap. */
module Deals {
  import opened Prelude
  import opened SessionLogic
  import opened Tables
  import opened Pool
  import opened Handlers
  import opened Invariants
  import opened Preservation
  import opened Runs
  import opened History
  import opened Discipline
  import opened Lifecycle

  type Pools = Track -> seq<ItemId>

  ghost predicate TrueDeal(batches: map<BatchId, Batch>, batchItems: map<BatchItemId, BatchItem>, code: Code,
                           x: BatchItemId, t: Track)
  {
    InSession(batchItems, batches, code, x) && batches[batchItems[x].batch].track == t
  }

  ghost predicate FromPool(batches: map<BatchId, Batch>, batchItems: map<BatchItemId, BatchItem>, code: Code,
                           pools: Pools)
  {
    forall x, t | TrueDeal(batches, batchItems, code, x, t) :: batchItems[x].item in pools(t)
  }

  /** Option ids grow with batch and then with place in the batch, so comparing
      them compares places in the concatenation of the batches. */
  ghost predicate Ascending(batches: map<BatchId, Batch>, batchItems: map<BatchItemId, BatchItem>, code: Code,
                            pools: Pools)
  {
    forall x, y, t | TrueDeal(batches, batchItems, code, x, t) && TrueDeal(batches, batchItems, code, y, t) && x < y
                     && batchItems[x].item in pools(t) && batchItems[y].item in pools(t) ::
      Position(pools(t), batchItems[x].item) < Position(pools(t), batchItems[y].item)
  }

  /** Whatever precedes a dealt item in its pool has been offered too. */
  ghost predicate NoGaps(batches: map<BatchId, Batch>, batchItems: map<BatchItemId, BatchItem>, code: Code,
                         pools: Pools)
  {
    forall x, t, i | TrueDeal(batches, batchItems, code, x, t) && i in pools(t) && batchItems[x].item in pools(t)
                     && Position(pools(t), i) < Position(pools(t), batchItems[x].item) ::
      i in Offered(batchItems, batches, code)
  }

  ghost predicate InOrder(batches: map<BatchId, Batch>, batchItems: map<BatchItemId, BatchItem>, code: Code,
                          pools: Pools)
  {
    && FromPool(batches, batchItems, code, pools)
    && Ascending(batches, batchItems, code, pools)
    && NoGaps(batches, batchItems, code, pools)
  }

  // ------------------------------------------------------------ dealing on

  /** Adding a batch: old options stay as they were, new ones are the chosen. */
  lemma AddedDeals(batches: map<BatchId, Batch>, batchItems: map<BatchItemId, BatchItem>,
                   b: BatchId, row: Batch, first: BatchItemId, chosen: seq<ItemId>)
    requires b !in batches && forall x | x in batchItems :: x < first && batchItems[x].batch in batches
    ensures var after := batchItems + NewOptions(b, first, chosen);
            forall x: BatchItemId, t | TrueDeal(batches[b := row], after, row.session, x, t) ::
              if x < first then TrueDeal(batches, batchItems, row.session, x, t) && after[x] == batchItems[x]
              else t == row.track && x < first + |chosen| && after[x].item == chosen[x - first]
  {
    var after := batchItems + NewOptions(b, first, chosen);
    forall x: BatchItemId, t | TrueDeal(batches[b := row], after, row.session, x, t)
      ensures if x < first then TrueDeal(batches, batchItems, row.session, x, t) && after[x] == batchItems[x]
              else t == row.track && x < first + |chosen| && after[x].item == chosen[x - first]
    {
      if x < first {
        assert after[x] == batchItems[x];
      } else {
        assert after[x] == NewOptions(b, first, chosen)[x];
      }
    }
  }

  lemma AddedOffers(batches: map<BatchId, Batch>, batchItems: map<BatchItemId, BatchItem>,
                    b: BatchId, row: Batch, first: BatchItemId, chosen: seq<ItemId>)
    requires b !in batches && forall x | x in batchItems :: x < first && batchItems[x].batch in batches
    ensures var after := batchItems + NewOptions(b, first, chosen);
            && (forall i | i in Offered(batchItems, batches, row.session) ::
                i in Offered(after, batches[b := row], row.session))
            && (forall i | i in chosen :: i in Offered(after, batches[b := row], row.session))
  {
    var after := batchItems + NewOptions(b, first, chosen);
    forall i | i in Offered(batchItems, batches, row.session)
      ensures i in Offered(after, batches[b := row], row.session)
    {
      var x :| x in batchItems && InSession(batchItems, batches, row.session, x) && batchItems[x].item == i;
      assert InSession(after, batches[b := row], row.session, x) && after[x].item == i;
    }
    forall i | i in chosen ensures i in Offered(after, batches[b := row], row.session) {
      var k :| 0 <= k < |chosen| && chosen[k] == i;
      assert InSession(after, batches[b := row], row.session, first + k) && after[first + k].item == i;
    }
  }

  /** An item not offered yet lies after everything its track has dealt. */
  lemma OldBeforeNew(batches: map<BatchId, Batch>, batchItems: map<BatchItemId, BatchItem>, code: Code, pools: Pools,
                     x: BatchItemId, t: Track, i: ItemId)
    requires FromPool(batches, batchItems, code, pools) && NoGaps(batches, batchItems, code, pools)
    requires TrueDeal(batches, batchItems, code, x, t) && i in pools(t) && i !in Offered(batchItems, batches, code)
    ensures batchItems[x].item in pools(t) && Position(pools(t), batchItems[x].item) < Position(pools(t), i)
  {
    assert batchItems[x].item in Offered(batchItems, batches, code);
    assert pools(t)[Position(pools(t), batchItems[x].item)] != pools(t)[Position(pools(t), i)];
  }

  /** What is known of the tables `dealt` and `after` a deal of `chosen` leaves. */
  ghost predicate Added(batches: map<BatchId, Batch>, batchItems: map<BatchItemId, BatchItem>,
                        dealt: map<BatchId, Batch>, after: map<BatchItemId, BatchItem>,
                        code: Code, pools: Pools, track: Track, first: BatchItemId, chosen: seq<ItemId>)
  {
    && (forall x: BatchItemId, t | TrueDeal(dealt, after, code, x, t) ::
          if x < first then TrueDeal(batches, batchItems, code, x, t) && after[x] == batchItems[x]
          else t == track && x < first + |chosen| && after[x].item == chosen[x - first])
    && (forall i | i in chosen :: i in pools(track) && i !in Offered(batchItems, batches, code))
    && (forall i | i in Offered(batchItems, batches, code) || i in chosen :: i in Offered(after, dealt, code))
  }

  lemma AddedAll(batches: map<BatchId, Batch>, batchItems: map<BatchItemId, BatchItem>, pools: Pools,
                 b: BatchId, row: Batch, first: BatchItemId, chosen: seq<ItemId>)
    requires b !in batches && forall x | x in batchItems :: x < first && batchItems[x].batch in batches
    requires forall i | i in chosen :: i in pools(row.track) && i !in Offered(batchItems, batches, row.session)
    ensures Added(batches, batchItems, batches[b := row], batchItems + NewOptions(b, first, chosen), row.session,
                  pools, row.track, first, chosen)
  {
    hide Offered;
    AddedDeals(batches, batchItems, b, row, first, chosen);
    AddedOffers(batches, batchItems, b, row, first, chosen);
  }

  lemma DealStaysInOrder(batches: map<BatchId, Batch>, batchItems: map<BatchItemId, BatchItem>, pools: Pools,
                         b: BatchId, row: Batch, first: BatchItemId, chosen: seq<ItemId>)
    requires b !in batches && forall x | x in batchItems :: x < first && batchItems[x].batch in batches
    requires NoRepeats(pools(row.track))
    requires InOrder(batches, batchItems, row.session, pools)
    requires chosen == AssembleBatch(pools(row.track), Offered(batchItems, batches, row.session))
    ensures InOrder(batches[b := row], batchItems + NewOptions(b, first, chosen), row.session, pools)
  {
    hide TrueDeal, Ascending, NoGaps, FromPool, AssembleBatch, Offered, Position, Added;
    AssembleBatchDeals(pools(row.track), Offered(batchItems, batches, row.session), BATCH_SIZE);
    AddedAll(batches, batchItems, pools, b, row, first, chosen);
    var dealt, after := batches[b := row], batchItems + NewOptions(b, first, chosen);
    DealFromPool(batches, batchItems, dealt, after, row.session, pools, row.track, first, chosen);
    DealAscending(batches, batchItems, dealt, after, row.session, pools, row.track, first, chosen);
    DealNoGaps(batches, batchItems, dealt, after, row.session, pools, row.track, first, chosen);
  }

  lemma DealFromPool(batches: map<BatchId, Batch>, batchItems: map<BatchItemId, BatchItem>,
                     dealt: map<BatchId, Batch>, after: map<BatchItemId, BatchItem>,
                     code: Code, pools: Pools, track: Track, first: BatchItemId, chosen: seq<ItemId>)
    requires Added(batches, batchItems, dealt, after, code, pools, track, first, chosen)
    requires FromPool(batches, batchItems, code, pools)
    ensures FromPool(dealt, after, code, pools)
  {
    hide Offered;
  }

  lemma DealAscending(batches: map<BatchId, Batch>, batchItems: map<BatchItemId, BatchItem>,
                      dealt: map<BatchId, Batch>, after: map<BatchItemId, BatchItem>,
                      code: Code, pools: Pools, track: Track, first: BatchItemId, chosen: seq<ItemId>)
    requires Added(batches, batchItems, dealt, after, code, pools, track, first, chosen)
    requires InOrder(batches, batchItems, code, pools)
    requires forall j, k | 0 <= j < k < |chosen| ::
               Position(pools(track), chosen[j]) < Position(pools(track), chosen[k])
    ensures Ascending(dealt, after, code, pools)
  {
    hide Offered, NoGaps, FromPool;
    forall x: BatchItemId, y: BatchItemId, t | TrueDeal(dealt, after, code, x, t)
                                               && TrueDeal(dealt, after, code, y, t) && x < y
                     && after[x].item in pools(t) && after[y].item in pools(t)
      ensures Position(pools(t), after[x].item) < Position(pools(t), after[y].item)
    {
      if x < first <= y {
        OldBeforeNew(batches, batchItems, code, pools, x, t, after[y].item);
      }
    }
  }

  lemma DealNoGaps(batches: map<BatchId, Batch>, batchItems: map<BatchItemId, BatchItem>,
                   dealt: map<BatchId, Batch>, after: map<BatchItemId, BatchItem>,
                   code: Code, pools: Pools, track: Track, first: BatchItemId, chosen: seq<ItemId>)
    requires Added(batches, batchItems, dealt, after, code, pools, track, first, chosen)
    requires NoGaps(batches, batchItems, code, pools)
    requires forall x, y | x in chosen && y in pools(track) && y !in Offered(batchItems, batches, code)
                           && y !in chosen ::
               Position(pools(track), x) < Position(pools(track), y)
    ensures NoGaps(dealt, after, code, pools)
  {
    hide Offered;
    forall x: BatchItemId, t, i: ItemId | TrueDeal(dealt, after, code, x, t) && i in pools(t)
                                          && after[x].item in pools(t)
                     && Position(pools(t), i) < Position(pools(t), after[x].item)
      ensures i in Offered(after, dealt, code)
    {
      if x >= first {
        assert after[x].item == chosen[x - first];
        assert after[x].item in chosen;
      }
    }
  }

  // ------------------------------------------------------------ other requests

  /** Onward, every deal stays a deal, of the same item. */
  lemma DealsStay(a: Db, b: Db, code: Code)
    requires Onward(a, b)
    ensures forall x, t | TrueDeal(a.batches, a.batchItems, code, x, t) ::
              TrueDeal(b.batches, b.batchItems, code, x, t) && b.batchItems[x].item == a.batchItems[x].item
  {
  }

  /** With no new batch there are no others. */
  lemma SameDeals(a: Db, b: Db, code: Code)
    requires Onward(a, b) && NoNewRound(a, b, code)
    ensures forall x, t ::
              TrueDeal(b.batches, b.batchItems, code, x, t) <==> TrueDeal(a.batches, a.batchItems, code, x, t)
    ensures forall x, t | TrueDeal(a.batches, a.batchItems, code, x, t) :: b.batchItems[x].item == a.batchItems[x].item
  {
    SameOptions(a, b, code);
    DealsStay(a, b, code);
    forall x, t | TrueDeal(b.batches, b.batchItems, code, x, t) ensures TrueDeal(a.batches, a.batchItems, code, x, t) {
      assert InSession(a.batchItems, a.batches, code, x);
    }
  }

  lemma QuietInOrder(a: Db, b: Db, code: Code, pools: Pools)
    requires Onward(a, b) && NoNewRound(a, b, code)
    requires InOrder(a.batches, a.batchItems, code, pools)
    ensures InOrder(b.batches, b.batchItems, code, pools)
  {
    SameDeals(a, b, code);
    SameOptionsSameOffers(a, b, code);
    hide TrueDeal, Offered, BatchesOf, Onward, NoNewRound;
  }

  /** Out of the pool, or out of its order, is for good. */
  lemma DisorderStays(a: Db, b: Db, code: Code, pools: Pools)
    requires Onward(a, b) && FromPool(b.batches, b.batchItems, code, pools)
    requires Ascending(b.batches, b.batchItems, code, pools)
    ensures FromPool(a.batches, a.batchItems, code, pools) && Ascending(a.batches, a.batchItems, code, pools)
  {
    DealsStay(a, b, code);
    hide Onward, TrueDeal, Position;
  }

  // ------------------------------------------------------------ pools

  ghost predicate HasPools(db: Db, code: Code, pools: Pools) {
    code in db.sessions && forall t :: PoolOf(db.items, db.nextItem, db.sessions[code], t) == pools(t)
  }

  lemma ItsPool(db: Db, code: Code, pools: Pools, track: Track)
    requires HasPools(db, code, pools)
    ensures code in db.sessions && PoolOf(db.items, db.nextItem, db.sessions[code], track) == pools(track)
  {
  }

  lemma SameShelfPools(a: Db, b: Db, code: Code, pools: Pools)
    requires HasPools(a, code, pools) && code in b.sessions
    requires b.sessions[code] == a.sessions[code].(status := b.sessions[code].status)
    requires SameShelf(a.items, b.items, a.sessions[code].collection)
    requires (forall i | i in a.items :: i < a.nextItem) && (forall i | i in b.items :: i < b.nextItem)
    ensures HasPools(b, code, pools)
  {
    hide SameShelf;
    forall t ensures PoolOf(b.items, b.nextItem, b.sessions[code], t) == pools(t) {
      PoolSame(a.items, a.nextItem, b.items, b.nextItem, a.sessions[code], t);
    }
  }

  /** A session's pools move only when its own collection is edited. */
  lemma StepPools(db: Db, a: Action, code: Code, pools: Pools)
    requires Inv(db) && HasPools(db, code, pools) && !EditsCollection(db, a, code)
    ensures HasPools(Step(db, a).0, code, pools)
  {
    hide Targets, Rosters, Rounds, Newest, Sizes, Sourced, DealOrder;
    hide Reported, Tallies, Ballots, Counters, NoneOverdue, HasPools;
    ItsPool(db, code, pools, Breakfast);
    StepKeeps(db, a);
    if EditsLibrary(a) {
      EditedElsewhere(db, a, code);
      EditStep(db, a);
      hide Step, EditLibrary, EditsCollection, SameShelf;
      SameShelfPools(db, Step(db, a).0, code, pools);
    } else {
      hide Step;
      StepUnmoved(db, a, code);
      SameShelfPools(db, Step(db, a).0, code, pools);
    }
  }

  // ------------------------------------------------------------ one request

  lemma DealtInOrder(db: Db, after: Db, code: Code, pools: Pools, track: Track, chosen: seq<ItemId>)
    requires IsDealt(db, after, code, track, chosen) && NoRepeats(pools(track))
    requires InOrder(db.batches, db.batchItems, code, pools)
    requires chosen == AssembleBatch(pools(track), Offered(db.batchItems, db.batches, code))
    ensures InOrder(after.batches, after.batchItems, code, pools)
  {
    hide InOrder, NewOptions, NextSeq, SeqsOf, AssembleBatch, Offered;
    DealtIsNew(db);
    DealStaysInOrder(db.batches, db.batchItems, pools, db.nextBatch, after.batches[db.nextBatch], db.nextBatchItem,
                     chosen);
  }

  /** What a request deals is the next piece of the pool, unless it starts over. */
  lemma DealsNextPiece(db: Db, a: Action, code: Code, pools: Pools)
    requires Inv(db) && HasPools(db, code, pools) && DealOf(db, a, code).Some? && !StartsOver(db, a, code)
    ensures var (track, chosen) := DealOf(db, a, code).value;
            NoRepeats(pools(track)) && chosen == AssembleBatch(pools(track), Offered(db.batchItems, db.batches, code))
  {
    hide Targets, Rosters, Newest, Sizes, Sourced, DealOrder, Reported;
    hide Tallies, Ballots, Counters, NoneOverdue;
    hide HostGate, NextBatchAssembly, FirstTrack, FirstDeal, Offered, HasPools, PoolOf, AssembleBatch;
    var (track, chosen) := DealOf(db, a, code).value;
    AdmittedIsLive(db, code, a.account, a.now);
    ItsPool(db, code, pools, track);
    PoolIsEligible(db.items, db.nextItem, db.sessions[code], track);
    if a.Start? {
      LobbyIsFresh(db, code);
      FirstDealHasTrack(db, code);
      FirstDealOf(db, code);
    } else {
      AssemblyFinds(db, code, TRACK_ORDER);
      assert NextBatchAssembly(db, code) == (Some(track), chosen);
      assert Assembles(db, code, track, chosen);
    }
  }

  lemma StepInOrder(db: Db, a: Action, code: Code, pools: Pools)
    requires Inv(db) && HasPools(db, code, pools) && InOrder(db.batches, db.batchItems, code, pools)
    requires !StartsOver(db, a, code)
    ensures var after := Step(db, a).0; InOrder(after.batches, after.batchItems, code, pools)
  {
    hide Inv, Step, Onward, NoNewRound, StartsOver, InOrder, HasPools, DealtFrom, IsDealt, Offered, AssembleBatch;
    ItsPool(db, code, pools, Breakfast);
    StepDeals(db, a, code);
    match DealOf(db, a, code)
    case None => QuietInOrder(db, Step(db, a).0, code, pools);
    case Some(d) =>
      DealsNextPiece(db, a, code, pools);
      FromInOrder(db, a, code, pools);
      DealtInOrder(DealtFrom(db, a, code), Step(db, a).0, code, pools, d.0, d.1);
  }

  lemma FromInOrder(db: Db, a: Action, code: Code, pools: Pools)
    requires InOrder(db.batches, db.batchItems, code, pools)
    ensures var from := DealtFrom(db, a, code);
            && InOrder(from.batches, from.batchItems, code, pools)
            && Offered(from.batchItems, from.batches, code) == Offered(db.batchItems, db.batches, code)
  {
    hide InOrder, Offered, Undecided;
    var ids := Undecided(db.batchItems, db.batches, code);
    UndecidedIsPending(db, code);
    DecidedOnward(db, PassAll(db, ids), ids);
    PassedNoneUndecided(db, code);
    QuietInOrder(db, PassAll(db, ids), code, pools);
  }

  // ------------------------------------------------------------ starting over

  /** What a start deals from these pools. */
  ghost predicate IsTop(db: Db, code: Code, pools: Pools, track: Track, top: ItemId)
    requires code in db.sessions
  {
    && FirstTrack(db.sessions[code].targets) == Some(track)
    && AssembleBatch(pools(track), {}) != []
    && AssembleBatch(pools(track), {})[0] == top
  }

  ghost predicate WasDealt(db: Db, code: Code, track: Track, i: ItemId) {
    exists x :: TrueDeal(db.batches, db.batchItems, code, x, track) && db.batchItems[x].item == i
  }

  /** A collection-backed session that is voting has been dealt the top of its
      first track's pool. */
  ghost predicate TopDealt(db: Db, code: Code, pools: Pools) {
    code in db.sessions && db.sessions[code].status == Voting && db.sessions[code].collection.Some? ==>
      exists track, top :: IsTop(db, code, pools, track, top) && WasDealt(db, code, track, top)
  }

  lemma WasDealtStays(a: Db, b: Db, code: Code, track: Track, i: ItemId)
    requires Onward(a, b) && WasDealt(a, code, track, i)
    ensures WasDealt(b, code, track, i)
  {
    var x :| TrueDeal(a.batches, a.batchItems, code, x, track) && a.batchItems[x].item == i;
    DealsStay(a, b, code);
    hide Onward;
    assert TrueDeal(b.batches, b.batchItems, code, x, track);
  }

  lemma DealtWasDealt(db: Db, after: Db, code: Code, track: Track, chosen: seq<ItemId>, k: nat)
    requires IsDealt(db, after, code, track, chosen) && k < |chosen|
    ensures var y := db.nextBatchItem + k;
            TrueDeal(after.batches, after.batchItems, code, y, track) && after.batchItems[y].item == chosen[k]
  {
    assert after.batchItems[db.nextBatchItem + k]
        == NewOptions(db.nextBatch, db.nextBatchItem, chosen)[db.nextBatchItem + k];
  }

  /** A start deals the top, whether it starts voting or starts it over. */
  lemma StartDealsTop(db: Db, a: Action, code: Code, pools: Pools)
    requires HasPools(db, code, pools) && a.Start? && DealOf(db, a, code).Some?
    ensures var (track, chosen) := DealOf(db, a, code).value; IsTop(db, code, pools, track, chosen[0])
  {
    hide HostGate, FirstTrack, FirstDeal, HasPools, PoolOf, AssembleBatch;
    FirstDealHasTrack(db, code);
    FirstDealOf(db, code);
    ItsPool(db, code, pools, DealOf(db, a, code).value.0);
  }

  lemma OverDeals(db: Db, a: Action, code: Code, pools: Pools)
    requires HasPools(db, code, pools) && TopDealt(db, code, pools) && StartsOver(db, a, code)
    ensures DealOf(db, a, code).Some?
  {
    hide HostGate, FirstTrack, HasPools, PoolOf, AssembleBatch;
    var track, top :| IsTop(db, code, pools, track, top) && WasDealt(db, code, track, top);
    FirstDealOf(db, code);
    ItsPool(db, code, pools, track);
  }

  lemma TopStays(db: Db, after: Db, code: Code, pools: Pools)
    requires TopDealt(db, code, pools) && Onward(db, after) && code in db.sessions && code in after.sessions
    requires db.sessions[code].status == Voting && db.sessions[code].collection.Some?
    requires after.sessions[code].targets == db.sessions[code].targets
    ensures TopDealt(after, code, pools)
  {
    hide WasDealt, Onward, FirstTrack, AssembleBatch;
    var track, top :| IsTop(db, code, pools, track, top) && WasDealt(db, code, track, top);
    WasDealtStays(db, after, code, track, top);
    assert IsTop(after, code, pools, track, top);
  }

  lemma StepTopDealt(db: Db, a: Action, code: Code, pools: Pools)
    requires Inv(db) && HasPools(db, code, pools) && TopDealt(db, code, pools)
    ensures TopDealt(Step(db, a).0, code, pools)
  {
    hide Targets, Rosters, Newest, Sizes, Sourced, DealOrder, Reported;
    hide Tallies, Ballots, Counters, NoneOverdue;
    hide Step, NoNewRound, HasPools, WasDealt, FirstTrack, AssembleBatch, Moves, RoundsOnward, RowsOnward;
    var after := Step(db, a).0;
    ItsPool(db, code, pools, Breakfast);
    StepDeals(db, a, code);
    StatusChanges(db, a, code);
    SettingsStay(db, a, code);
    if after.sessions[code].status == Voting && after.sessions[code].collection.Some? {
      if db.sessions[code].status == Voting {
        TopStays(db, after, code, pools);
      } else {
        VotingByStart(db, a, code);
        var (track, chosen) := DealOf(db, a, code).value;
        StartDealsTop(db, a, code, pools);
        DealtWasDealt(db, after, code, track, chosen, 0);
        DealShows(after, code, track, db.nextBatchItem);
        assert IsTop(after, code, pools, track, chosen[0]);
      }
    }
  }

  lemma DealShows(db: Db, code: Code, track: Track, x: BatchItemId)
    requires TrueDeal(db.batches, db.batchItems, code, x, track)
    ensures WasDealt(db, code, track, db.batchItems[x].item)
  {
  }

  lemma SettingsStay(db: Db, a: Action, code: Code)
    requires code in db.sessions
    ensures var after := Step(db, a).0;
            code in after.sessions && after.sessions[code] == db.sessions[code].(status := after.sessions[code].status)
  {
    if EditsLibrary(a) {
    } else {
      hide Step;
      StepUnmoved(db, a, code);
    }
  }

  /** Voting in a collection-backed session begins with a deal. */
  lemma VotingByStart(db: Db, a: Action, code: Code)
    requires Inv(db) && code in db.sessions && db.sessions[code].status != Voting && db.sessions[code].collection.Some?
    requires code in Step(db, a).0.sessions && Step(db, a).0.sessions[code].status == Voting
    ensures a.Start? && DealOf(db, a, code).Some?
  {
    hide Refs, Targets, Rosters, Rounds, Newest, Sizes, Sourced;
    hide DealOrder, Reported, Tallies, Ballots, Counters, NoneOverdue;
    hide Step, Stale, FirstDeal;
    StatusChanges(db, a, code);
    StartIsIt(db, a, code);
  }

  lemma StartIsIt(db: Db, a: Action, code: Code)
    requires Inv(db) && code in db.sessions && db.sessions[code].status == Lobby && db.sessions[code].collection.Some?
    requires a.Start? && a.code == code && code in Step(db, a).0.sessions
    requires Step(db, a).0.sessions[code].status == Voting
    ensures DealOf(db, a, code).Some?
  {
    hide Refs, Rosters, Newest, Sizes, Sourced, DealOrder;
    hide Reported, Tallies, Ballots, Counters, NoneOverdue;
    hide FirstDeal, StartAdmitted;
    LobbyIsFresh(db, code);
    if HostGate(db, code, a.account, a.now).Admitted? {
      StartStarts(db, code, a.account, a.now);
    } else {
      GateMoves(db, a, code);
    }
  }

  /** A start over deals the top of the pool again: an item twice, out of order. */
  lemma OverBreaksOrder(db: Db, a: Action, code: Code, pools: Pools)
    requires Inv(db) && HasPools(db, code, pools) && TopDealt(db, code, pools) && StartsOver(db, a, code)
    ensures DealsAgain(db, a, code)
    ensures var after := Step(db, a).0;
            !(FromPool(after.batches, after.batchItems, code, pools)
              && Ascending(after.batches, after.batchItems, code, pools))
  {
    hide Inv, Step, HasPools, FirstTrack, AssembleBatch, RoundsOnward, RowsOnward, HostGate, FirstDeal, Offered;
    OverDeals(db, a, code, pools);
    StepDeals(db, a, code);
    StartDealsTop(db, a, code, pools);
    var after := Step(db, a).0;
    var (track, chosen) := DealOf(db, a, code).value;
    var t, top :| IsTop(db, code, pools, t, top) && WasDealt(db, code, t, top);
    var x :| TrueDeal(db.batches, db.batchItems, code, x, t) && db.batchItems[x].item == top;
    ShownIsOffered(db, code, x, t);
    hide IsTop;
    DealsStay(db, after, code);
    DealtWasDealt(db, after, code, track, chosen, 0);
    TwiceDisorders(after, code, pools, track, x, db.nextBatchItem);
  }

  lemma ShownIsOffered(db: Db, code: Code, x: BatchItemId, t: Track)
    requires TrueDeal(db.batches, db.batchItems, code, x, t)
    ensures db.batchItems[x].item in Offered(db.batchItems, db.batches, code)
  {
  }

  lemma TwiceDisorders(db: Db, code: Code, pools: Pools, t: Track, x: BatchItemId, y: BatchItemId)
    requires TrueDeal(db.batches, db.batchItems, code, x, t) && TrueDeal(db.batches, db.batchItems, code, y, t)
    requires x < y && db.batchItems[x].item == db.batchItems[y].item
    ensures !(FromPool(db.batches, db.batchItems, code, pools) && Ascending(db.batches, db.batchItems, code, pools))
  {
  }

  // ------------------------------------------------------------ runs

  ghost predicate NeverStartsOver(db: Db, actions: seq<Action>, code: Code) {
    forall n | 0 <= n < |actions| :: !StartsOver(Run(db, actions[..n]), actions[n], code)
  }

  /** Where a session stands on its way: its pools, the top dealt, and either
      everything in order or disorder for good. */
  ghost predicate OnTheWay(db: Db, code: Code, pools: Pools, over: bool) {
    && HasPools(db, code, pools) && TopDealt(db, code, pools)
    && if over
       then !NoReoffer(db.batches, db.batchItems, code)
            && !(FromPool(db.batches, db.batchItems, code, pools) && Ascending(db.batches, db.batchItems, code, pools))
       else NoReoffer(db.batches, db.batchItems, code) && InOrder(db.batches, db.batchItems, code, pools)
  }

  lemma StepOnTheWay(db: Db, a: Action, code: Code, pools: Pools, over: bool)
    requires Inv(db) && OnTheWay(db, code, pools, over) && !EditsCollection(db, a, code)
    ensures OnTheWay(Step(db, a).0, code, pools, over || StartsOver(db, a, code))
  {
    hide Inv, Step, HasPools, TopDealt, StartsOver, NoReoffer, InOrder, FromPool, Ascending, DealsAgain;
    hide EditsCollection, Onward;
    ItsPool(db, code, pools, Breakfast);
    StepPools(db, a, code, pools);
    StepTopDealt(db, a, code, pools);
    StepDisciplined(db, a, code);
    OverOnly(db, a, code);
    StepDeals(db, a, code);
    if StartsOver(db, a, code) {
      OverBreaksOrder(db, a, code, pools);
    } else if over {
      var after := Step(db, a).0;
      if FromPool(after.batches, after.batchItems, code, pools)
         && Ascending(after.batches, after.batchItems, code, pools) {
        DisorderStays(db, after, code, pools);
      }
    } else {
      StepInOrder(db, a, code, pools);
    }
  }

  lemma OverOnly(db: Db, a: Action, code: Code)
    ensures DealsAgain(db, a, code) ==> StartsOver(db, a, code)
  {
  }

  lemma {:induction false} RunOnTheWay(db: Db, actions: seq<Action>, code: Code, pools: Pools)
    requires Inv(db) && OnTheWay(db, code, pools, false) && CollectionStands(db, actions, code)
    ensures OnTheWay(Run(db, actions), code, pools, !NeverStartsOver(db, actions, code))
    decreases |actions|
  {
    hide Inv, OnTheWay, StartsOver, EditsCollection, Step, Run;
    if actions == [] {
      RunNothing(db);
    } else {
      var init, last := actions[..|actions| - 1], |actions| - 1;
      assert forall n | 0 <= n < last :: init[..n] == actions[..n];
      assert actions[..last] == init;
      RunOnTheWay(db, init, code, pools);
      RunKeeps(db, init);
      RunUnfolds(db, actions);
      StepOnTheWay(Run(db, init), actions[last], code, pools, !NeverStartsOver(db, init, code));
    }
  }

  /** The pools a lobby would deal from. */
  ghost function PoolsOf(db: Db, code: Code): Pools
    requires code in db.sessions
  {
    t => PoolOf(db.items, db.nextItem, db.sessions[code], t)
  }

  lemma LobbyOnTheWay(db: Db, code: Code)
    requires Rounds(db.sessions, db.batches) && code in db.sessions && db.sessions[code].status == Lobby
    ensures OnTheWay(db, code, PoolsOf(db, code), false)
  {
    LobbyIsFresh(db, code);
    hide PoolOf, InSession;
  }

  /** From its lobby on, with its collection left alone, a session deals every
      track in pool order and without gaps exactly when its voting is never
      started over; and exactly then it is dealt no item twice. */
  lemma DealsFollowThePool(before: seq<Action>, actions: seq<Action>, code: Code)
    requires CollectionStands(Reached(before), actions, code)
    ensures var lobby, after := Reached(before), Run(Reached(before), actions);
            code in lobby.sessions && lobby.sessions[code].status == Lobby ==>
            && (InOrder(after.batches, after.batchItems, code, PoolsOf(lobby, code))
                <==> NeverStartsOver(lobby, actions, code))
            && (NoReoffer(after.batches, after.batchItems, code) <==> NeverStartsOver(lobby, actions, code))
  {
    hide Refs, Targets, Rosters, Newest, Sizes, Sourced, DealOrder, Reported;
    hide Tallies, Ballots, Counters, NoneOverdue, Step, Run, NeverStartsOver, TopDealt, HasPools, FromPool, Ascending;
    hide NoGaps, NoReoffer;
    var lobby := Reached(before);
    ReachedKeeps(before);
    if code in lobby.sessions && lobby.sessions[code].status == Lobby {
      LobbyOnTheWay(lobby, code);
      RunOnTheWay(lobby, actions, code, PoolsOf(lobby, code));
    }
  }

  // ------------------------------------------------------------ one track

  ghost predicate DealtBefore(db: Db, code: Code, i: ItemId, y: BatchItemId) {
    exists x: BatchItemId :: x < y && InSession(db.batchItems, db.batches, code, x) && db.batchItems[x].item == i
  }

  lemma OneTrackNoGaps(db: Db, code: Code, pools: Pools, t: Track, y: BatchItemId, i: ItemId)
    requires Rounds(db.sessions, db.batches) && InOrder(db.batches, db.batchItems, code, pools)
    requires code in db.sessions && db.sessions[code].targets.Keys == {t}
    requires InSession(db.batchItems, db.batches, code, y)
    ensures db.batchItems[y].item in pools(t)
    ensures i in pools(t) && Position(pools(t), i) < Position(pools(t), db.batchItems[y].item) ==>
            DealtBefore(db, code, i, y)
  {
    assert TrueDeal(db.batches, db.batchItems, code, y, t);
    if i in pools(t) && Position(pools(t), i) < Position(pools(t), db.batchItems[y].item) {
      assert i in Offered(db.batchItems, db.batches, code);
      var x :| x in db.batchItems && InSession(db.batchItems, db.batches, code, x) && db.batchItems[x].item == i;
      assert TrueDeal(db.batches, db.batchItems, code, x, t);
    }
  }

  /** With one track, what a session was dealt is a prefix of its pool: whatever
      stands before a dealt item in the pool was dealt before it. */
  lemma OneTrackDealsAPrefix(before: seq<Action>, actions: seq<Action>, code: Code, t: Track, y: BatchItemId)
    requires CollectionStands(Reached(before), actions, code) && NeverStartsOver(Reached(before), actions, code)
    ensures var lobby, after := Reached(before), Run(Reached(before), actions);
            code in lobby.sessions && lobby.sessions[code].status == Lobby && lobby.sessions[code].targets.Keys == {t}
            && InSession(after.batchItems, after.batches, code, y) ==>
            var pool := PoolOf(lobby.items, lobby.nextItem, lobby.sessions[code], t);
            && after.batchItems[y].item in pool
            && forall i | i in pool && Position(pool, i) < Position(pool, after.batchItems[y].item) ::
               DealtBefore(after, code, i, y)
  {
    hide Refs, Targets, Rosters, Rounds, Newest, Sizes, Sourced;
    hide DealOrder, Reported, Tallies, Ballots, Counters, NoneOverdue;
    hide InOrder, NoReoffer, Step, StartsOver, NeverStartsOver, EditsCollection, Run, DealtBefore, RoundsOnward;
    hide RowsOnward, PoolOf;
    var lobby, after := Reached(before), Run(Reached(before), actions);
    ReachedKeeps(before);
    RunKeeps(lobby, actions);
    RunOnward(lobby, actions);
    DealsFollowThePool(before, actions, code);
    if code in lobby.sessions && lobby.sessions[code].status == Lobby && lobby.sessions[code].targets.Keys == {t}
       && InSession(after.batchItems, after.batches, code, y) {
      var pool := PoolsOf(lobby, code)(t);
      OneTrackNoGaps(after, code, PoolsOf(lobby, code), t, y, after.batchItems[y].item);
      forall i | i in pool && Position(pool, i) < Position(pool, after.batchItems[y].item)
        ensures DealtBefore(after, code, i, y)
      {
        OneTrackNoGaps(after, code, PoolsOf(lobby, code), t, y, i);
      }
    }
  }
}
