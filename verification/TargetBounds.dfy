/** How far a session can go: keeps per track, options per session, rounds. */
module TargetBounds {
  import opened Prelude
  import opened SessionLogic
  import opened Tables
  import opened Pool
  import opened Handlers
  import opened Invariants
  import opened Preservation
  import opened Runs
  import opened History
  import opened Discipline
  import opened Views

  // ------------------------------------------------------------ over target

  /** A track's keeps are those of its newest batch and those before it. */
  lemma KeptSplits(db: Db, code: Code, t: Track, last: BatchId)
    requires last in db.batches && db.batches[last].session == code && db.batches[last].track == t
    requires forall b | b in db.batches && db.batches[b].session == code && db.batches[b].track == t :: b <= last
    ensures Kept(db.batchItems, db.batches, code, t) <= KeptBefore(db.batches, db.batchItems, last)
            + ItemsOf(db.batchItems, last)
  {
  }

  /** Batches of one track of a session. */
  function RoundsOf(batches: map<BatchId, Batch>, code: Code, t: Track): set<nat> {
    set b | b in batches && batches[b].session == code && batches[b].track == t
  }

  lemma WithinTarget(db: Db, code: Code, t: Track)
    requires Targets(db.sessions) && Sizes(db.batches, db.batchItems)
    requires DealtShort(db.sessions, db.batches, db.batchItems, code)
    requires code in db.sessions && t in db.sessions[code].targets
    ensures |Kept(db.batchItems, db.batches, code, t)| <= db.sessions[code].targets[t] + 14
  {
    var kept := Kept(db.batchItems, db.batches, code, t);
    if kept != {} {
      var x :| x in kept;
      assert db.batchItems[x].batch in RoundsOf(db.batches, code, t);
      var last := GreatestExists(RoundsOf(db.batches, code, t));
      assert forall b | b in db.batches && db.batches[b].session == code && db.batches[b].track == t ::
          b in RoundsOf(db.batches, code, t);
      KeptSplits(db, code, t, last);
      UnionSize(kept, KeptBefore(db.batches, db.batchItems, last), ItemsOf(db.batchItems, last));
    }
  }

  /** A track overshoots its target by at most one batch less one, over every
      run in which no start over of the session deals too soon. */
  lemma OverTargetBound(actions: seq<Action>, code: Code, t: Track)
    requires NeverTooSoon(EMPTY_DB, actions, code)
    ensures var db := Reached(actions);
            code in db.sessions && t in db.sessions[code].targets ==>
            |Kept(db.batchItems, db.batches, code, t)| <= db.sessions[code].targets[t] + 14
  {
    hide Refs, Rosters, Rounds, Newest, Sourced, DealOrder, Reported;
    hide Tallies, Ballots, Counters, NoneOverdue, DecidedFirst, DealsTooSoon, Run;
    ReachedKeeps(actions);
    PacedThroughoutMeans(actions, code);
    assert actions[..|actions|] == actions;
    var db := Reached(actions);
    if code in db.sessions && t in db.sessions[code].targets {
      WithinTarget(db, code, t);
    }
  }

  // ------------------------------------------------------------ rounds end

  function OfferedIn(batchItems: map<BatchItemId, BatchItem>, rounds: set<BatchId>): set<ItemId> {
    set x | x in batchItems && batchItems[x].batch in rounds :: batchItems[x].item
  }

  /** Disjoint nonempty deals: as many distinct items as batches, at least. */
  lemma {:induction false} RoundsAtMostItems(db: Db, code: Code, rounds: set<BatchId>)
    requires NoReoffer(db.batches, db.batchItems, code) && Sizes(db.batches, db.batchItems)
    requires forall b | b in rounds :: b in db.batches && db.batches[b].session == code
    ensures |rounds| <= |OfferedIn(db.batchItems, rounds)|
    decreases |rounds|
  {
    if b :| b in rounds {
      var rest := rounds - {b};
      RoundsAtMostItems(db, code, rest);
      var x :| x in ItemsOf(db.batchItems, b);
      var i := db.batchItems[x].item;
      assert i !in OfferedIn(db.batchItems, rest) by {
        if i in OfferedIn(db.batchItems, rest) {
          var y :| y in db.batchItems && db.batchItems[y].batch in rest && db.batchItems[y].item == i;
          assert InSession(db.batchItems, db.batches, code, x) && InSession(db.batchItems, db.batches, code, y);
        }
      }
      SubsetSize(OfferedIn(db.batchItems, rest) + {i}, OfferedIn(db.batchItems, rounds));
    }
  }

  function CollectionItems(db: Db, code: Code): set<ItemId>
    requires code in db.sessions
  {
    set i | i in db.items && Some(db.items[i].collection) == db.sessions[code].collection
  }

  lemma RoundsBounded(db: Db, code: Code)
    requires Sourced(db.sessions, db.items, db.batches, db.batchItems)
    requires NoReoffer(db.batches, db.batchItems, code) && Sizes(db.batches, db.batchItems) && code in db.sessions
    ensures |BatchesOf(db.batches, code)| <= |CollectionItems(db, code)|
  {
    var rounds := BatchesOf(db.batches, code);
    RoundsAtMostItems(db, code, rounds);
    SubsetSize(OfferedIn(db.batchItems, rounds), CollectionItems(db, code));
  }

  /** A session has at most as many rounds as its collection has items, over
      every run in which none of its starts over deals an offered item. */
  lemma RoundsEnd(actions: seq<Action>, code: Code)
    requires NeverDealsAgain(EMPTY_DB, actions, code)
    ensures var db := Reached(actions);
            code in db.sessions ==> |BatchesOf(db.batches, code)| <= |CollectionItems(db, code)|
  {
    hide Refs, Targets, Rosters, Rounds, Newest, DealOrder, Reported;
    hide Tallies, Ballots, Counters, NoneOverdue, DealsAgain, Run;
    ReachedKeeps(actions);
    NoReofferMeans(actions, code);
    if code in Reached(actions).sessions {
      RoundsBounded(Reached(actions), code);
    }
  }

  /** What a session could still be dealt. */
  function Left(db: Db, code: Code): set<ItemId>
    requires code in db.sessions
  {
    set i, t | i in db.items && t in db.sessions[code].targets && Eligible(db.items, db.sessions[code].collection, t, i)
               && i !in Offered(db.batchItems, db.batches, code) :: i
  }

  lemma DealtOfferedMore(batches: map<BatchId, Batch>, batchItems: map<BatchItemId, BatchItem>,
                         b: BatchId, row: Batch, first: BatchItemId, chosen: seq<ItemId>, i: ItemId)
    requires b !in batches && forall x | x in batchItems :: x < first && batchItems[x].batch in batches
    requires i in Offered(batchItems, batches, row.session) || i in chosen
    ensures i in Offered(batchItems + NewOptions(b, first, chosen), batches[b := row], row.session)
  {
    var after := batchItems + NewOptions(b, first, chosen);
    if i in chosen {
      var k :| 0 <= k < |chosen| && chosen[k] == i;
      assert InSession(after, batches[b := row], row.session, first + k) && after[first + k].item == i;
    } else {
      var x :| x in batchItems && InSession(batchItems, batches, row.session, x) && batchItems[x].item == i;
      assert InSession(after, batches[b := row], row.session, x) && after[x].item == i;
    }
  }

  /** Each round dealt by `next_batch` leaves strictly less to deal. */
  lemma NextBatchShrinks(db: Db, code: Code, account: Option<Account>, now: int)
    requires Refs(db) && HostGate(db, code, account, now).Admitted? && db.sessions[code].status == Voting
    requires OpenBatch(db.batches, code).None? && NextBatchAssembly(db, code).0.Some?
    ensures var after := NextBatch(db, code, account, now).0;
            OpenBatches(after.batches, code) != {} && Left(after, code) < Left(db, code)
  {
    hide HostGate, NextBatch;
    NextDeals(db, code, account, now);
    AssemblyFinds(db, code, TRACK_ORDER);
    var (track, chosen) := NextBatchAssembly(db, code);
    var passed := PassAll(db, Undecided(db.batchItems, db.batches, code));
    PassedNoneUndecided(db, code);
    LeftShrinks(db, passed, code, track.value, chosen);
    assert db.nextBatch in OpenBatches(OpenRound(passed, code, track.value, chosen).batches, code);
  }

  lemma FirstIsLeft(db: Db, code: Code, track: Track, chosen: seq<ItemId>)
    requires Refs(db) && code in db.sessions && Assembles(db, code, track, chosen)
    ensures chosen != [] && chosen[0] in chosen && chosen[0] in Left(db, code)
  {
    PoolIsEligible(db.items, db.nextItem, db.sessions[code], track);
    AssembleBatchDeals(PoolOf(db.items, db.nextItem, db.sessions[code], track),
                       Offered(db.batchItems, db.batches, code), BATCH_SIZE);
    hide PoolOf, AssembleBatch, Offered, Eligible;
  }

  lemma LeftShrinks(db: Db, passed: Db, code: Code, track: Track, chosen: seq<ItemId>)
    requires Refs(db) && code in db.sessions && Assembles(db, code, track, chosen)
    requires passed == PassAll(db, Undecided(db.batchItems, db.batches, code))
    requires Offered(passed.batchItems, passed.batches, code) == Offered(db.batchItems, db.batches, code)
    ensures Left(OpenRound(passed, code, track, chosen), code) < Left(db, code)
  {
    var after := OpenRound(passed, code, track, chosen);
    var row := after.batches[db.nextBatch];
    FirstIsLeft(db, code, track, chosen);
    hide PoolOf, AssembleBatch, Eligible;
    forall i | i in Offered(db.batchItems, db.batches, code) || i in chosen
      ensures i in Offered(after.batchItems, after.batches, code)
    {
      DealtOfferedMore(passed.batches, passed.batchItems, db.nextBatch, row, db.nextBatchItem, chosen, i);
    }
    assert chosen[0] !in Left(after, code);
  }

  // ------------------------------------------------------------ the completion screen's sums

  function OptionsIn(batchItems: map<BatchItemId, BatchItem>, rounds: set<BatchId>): set<BatchItemId> {
    set x | x in batchItems && batchItems[x].batch in rounds
  }

  /** Every batch has between one and fifteen options. */
  lemma {:induction false} OptionsPerRound(db: Db, rounds: set<BatchId>)
    requires Sizes(db.batches, db.batchItems) && forall b | b in rounds :: b in db.batches
    ensures |rounds| <= |OptionsIn(db.batchItems, rounds)| <= 15 * |rounds|
    decreases |rounds|
  {
    if b :| b in rounds {
      OptionsPerRound(db, rounds - {b});
      SplitSize(OptionsIn(db.batchItems, rounds), OptionsIn(db.batchItems, rounds - {b}), ItemsOf(db.batchItems, b));
    }
  }

  /** The completion screen adds up: it counts the session's batches and its
      options, at least one and at most fifteen to a batch, and lists among them
      exactly those kept. */
  lemma CompletionAdds(db: Db, code: Code)
    requires Refs(db) && Sizes(db.batches, db.batchItems)
    ensures var shown := CompletionPage(db, code);
            && shown.rounds == |BatchesOf(db.batches, code)|
            && shown.rounds <= shown.optionsSeen <= 15 * shown.rounds
            && |shown.kept| <= shown.optionsSeen
            && forall x :: x in shown.kept <==>
                 InSession(db.batchItems, db.batches, code, x)
                 && (db.batchItems[x].outcome == Some(KeptUnanimous) || db.batchItems[x].outcome == Some(KeptHost))
  {
    var rounds := BatchesOf(db.batches, code);
    OptionsPerRound(db, rounds);
    var seen := set x | x in db.batchItems && InSession(db.batchItems, db.batches, code, x);
    assert seen == OptionsIn(db.batchItems, rounds);
    SubsetSize(CompletionPage(db, code).kept.Keys, seen);
    KeysCount(CompletionPage(db, code).kept);
  }
}
