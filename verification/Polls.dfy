/** What a quiet poll tells. Outcomes are written once and pending counts only
    fall, so a results page that is told nothing has changed still shows what the
    session page would show, unless a later batch has come and closed behind it,
    the host has kept an item left undecided in an earlier batch, or the library
    has been edited under it. */
module Polls {
  import opened Prelude
  import opened SessionLogic
  import opened Tables
  import opened Pool
  import opened Handlers
  import opened Invariants
  import opened Runs
  import opened History
  import opened Views
  import Dealings

  // ------------------------------------------------------------ the results poll

  /** Nothing was kept in batches dealt after `b`. */
  ghost predicate NoKeepsAfter(db: Db, code: Code, b: BatchId) {
    forall x | InSession(db.batchItems, db.batches, code, x) && db.batchItems[x].batch > b ::
      !IsKept(db.batchItems[x].outcome)
  }

  /** Nothing that was still undecided in a batch before `b` has been kept since. */
  ghost predicate NoLateKeeps(before: Db, db: Db, code: Code, b: BatchId) {
    forall x | InSession(before.batchItems, before.batches, code, x) && before.batchItems[x].batch < b
               && before.batchItems[x].outcome.None? && x in db.batchItems ::
      !IsKept(db.batchItems[x].outcome)
  }

  function PendingSet(db: Db, code: Code, b: BatchId): set<BatchItemId> {
    set x | x in db.batchItems && InSession(db.batchItems, db.batches, code, x)
            && db.batchItems[x].batch == b && db.batchItems[x].outcome.None?
  }

  /** A quiet answer means the session is live, no other batch is open, and the
      pending count is the one the page was rendered with. */
  lemma QuietMeans(db: Db, code: Code, b: BatchId, pending: int, now: int)
    requires b in BatchesOf(db.batches, code) && code in db.sessions
    requires ResultsState(db, code, b, Some(pending), now).1 == Quiet
    ensures ResultsState(db, code, b, Some(pending), now).0 == db
    ensures |PendingSet(db, code, b)| == pending
    ensures forall c | c in OpenBatches(db.batches, code) :: c == b || OpenBatch(db.batches, code) == Some(b)
  {
  }

  /** Pending options only leave: with the same number left, they are the same. */
  lemma PendingUnmoved(a: Db, b: Db, code: Code, round: BatchId)
    requires Onward(a, b) && OnScreen(a, code, round)
    requires |PendingSet(b, code, round)| == |PendingSet(a, code, round)|
    ensures PendingSet(b, code, round) == PendingSet(a, code, round)
  {
    assert round !in OpenBatches(a.batches, code);
    SubsetSize(PendingSet(b, code, round), PendingSet(a, code, round));
  }

  lemma ShownBatchUnmoved(a: Db, b: Db, code: Code, round: BatchId)
    requires Onward(a, b) && OnScreen(a, code, round)
    requires PendingSet(b, code, round) == PendingSet(a, code, round)
    ensures PendingRows(b, round) == PendingRows(a, round)
    ensures NotKeptRows(b, round) == NotKeptRows(a, round)
    ensures forall x | x in a.batchItems && a.batchItems[x].batch == round ::
              x in b.batchItems && b.batchItems[x] == a.batchItems[x]
  {
    assert round !in OpenBatches(a.batches, code);
    forall x | x in a.batchItems && a.batchItems[x].batch == round
      ensures b.batchItems[x] == a.batchItems[x]
    {
      assert x in PendingSet(b, code, round) <==> x in PendingSet(a, code, round);
    }
    assert forall x | x in b.batchItems && b.batchItems[x].batch == round :: x in a.batchItems;
  }

  lemma NewRowsAreLater(a: Db, b: Db, code: Code, round: BatchId)
    requires Onward(a, b) && OnScreen(a, code, round) && Refs(a)
    ensures forall x | InSession(b.batchItems, b.batches, code, x) ::
              if InSession(a.batchItems, a.batches, code, x)
              then b.batchItems[x].batch <= round
              else b.batchItems[x].batch > round
  {
    forall x | InSession(b.batchItems, b.batches, code, x)
      ensures if InSession(a.batchItems, a.batches, code, x)
              then b.batchItems[x].batch <= round
              else b.batchItems[x].batch > round
    {
      var r := b.batchItems[x].batch;
      if x in a.batchItems {
        assert a.batches[a.batchItems[x].batch].session == b.batches[r].session;
        assert r in BatchesOf(a.batches, code);
      }
    }
  }

  /** An option of an earlier batch is kept now if it was then, or has been kept
      late. */
  lemma EarlierKept(a: Db, b: Db, code: Code, round: BatchId, x: BatchItemId)
    requires Onward(a, b) && OnScreen(a, code, round)
    requires InSession(a.batchItems, a.batches, code, x) && a.batchItems[x].batch < round
    ensures x in b.batchItems && b.batchItems[x] == a.batchItems[x].(outcome := b.batchItems[x].outcome)
    ensures a.batchItems[x].outcome.Some? ==> b.batchItems[x] == a.batchItems[x]
  {
    var r := a.batchItems[x].batch;
    assert r in BatchesOf(a.batches, code) && r !in OpenBatches(a.batches, code);
  }

  lemma KeptRowsUnmoved(a: Db, b: Db, code: Code, round: BatchId)
    requires Onward(a, b) && OnScreen(a, code, round) && Refs(a)
    requires forall x | x in a.batchItems && a.batchItems[x].batch == round ::
               x in b.batchItems && b.batchItems[x] == a.batchItems[x]
    ensures KeptRows(b, code) == KeptRows(a, code) <==> NoKeepsAfter(b, code, round) && NoLateKeeps(a, b, code, round)
  {
    NewRowsAreLater(a, b, code, round);
    assert forall x | InSession(a.batchItems, a.batches, code, x) :: InSession(b.batchItems, b.batches, code, x);
    forall x | InSession(a.batchItems, a.batches, code, x) && a.batchItems[x].batch < round
      ensures a.batchItems[x].outcome.Some? ==> b.batchItems[x] == a.batchItems[x]
    {
      EarlierKept(a, b, code, round, x);
    }
    if NoKeepsAfter(b, code, round) && NoLateKeeps(a, b, code, round) {
      KeptRowsSame(a, b, code, round);
    }
    if KeptRows(b, code) == KeptRows(a, code) {
      KeptRowsTell(a, b, code, round);
    }
  }

  lemma KeptRowsTell(a: Db, b: Db, code: Code, round: BatchId)
    requires KeptRows(b, code) == KeptRows(a, code)
    requires forall x | InSession(a.batchItems, a.batches, code, x) :: InSession(b.batchItems, b.batches, code, x)
    requires forall x | InSession(b.batchItems, b.batches, code, x) ::
               if InSession(a.batchItems, a.batches, code, x)
               then b.batchItems[x].batch <= round
               else b.batchItems[x].batch > round
    ensures NoKeepsAfter(b, code, round) && NoLateKeeps(a, b, code, round)
  {
    forall x | InSession(b.batchItems, b.batches, code, x) && b.batchItems[x].batch > round
      ensures !IsKept(b.batchItems[x].outcome)
    {
      assert x !in KeptRows(a, code);
    }
    forall x | InSession(a.batchItems, a.batches, code, x) && a.batchItems[x].outcome.None? && x in b.batchItems
      ensures !IsKept(b.batchItems[x].outcome)
    {
      assert x !in KeptRows(a, code);
    }
  }

  lemma KeptRowsSame(a: Db, b: Db, code: Code, round: BatchId)
    requires Onward(a, b) && OnScreen(a, code, round)
    requires forall x | x in a.batchItems && a.batchItems[x].batch == round ::
               x in b.batchItems && b.batchItems[x] == a.batchItems[x]
    requires forall x | InSession(b.batchItems, b.batches, code, x) ::
               if InSession(a.batchItems, a.batches, code, x)
               then b.batchItems[x].batch <= round
               else b.batchItems[x].batch > round
    requires NoKeepsAfter(b, code, round) && NoLateKeeps(a, b, code, round)
    ensures KeptRows(b, code) == KeptRows(a, code)
  {
    forall x ensures x in KeptRows(b, code) <==> x in KeptRows(a, code) {
      if InSession(a.batchItems, a.batches, code, x) && a.batchItems[x].batch < round {
        EarlierKept(a, b, code, round, x);
      }
    }
    forall x | x in KeptRows(a, code) ensures b.batchItems[x] == a.batchItems[x] {
      assert a.batchItems[x].batch in BatchesOf(a.batches, code);
      if a.batchItems[x].batch < round {
        EarlierKept(a, b, code, round, x);
      }
    }
  }

  lemma {:induction false} ProgressFollowsKept(a: Db, b: Db, code: Code, order: seq<Track>)
    requires Onward(a, b) && Refs(a) && code in a.sessions && KeptRows(b, code) == KeptRows(a, code)
    ensures TrackProgress(b, code, order) == TrackProgress(a, code, order)
    decreases |order|
  {
    if order != [] {
      ProgressFollowsKept(a, b, code, order[1..]);
      SameKept(a, b, code, order[0]);
    }
  }

  lemma SameKept(a: Db, b: Db, code: Code, t: Track)
    requires Onward(a, b) && Refs(a) && KeptRows(b, code) == KeptRows(a, code)
    ensures Kept(b.batchItems, b.batches, code, t) == Kept(a.batchItems, a.batches, code, t)
  {
    forall x ensures x in Kept(b.batchItems, b.batches, code, t) <==> x in Kept(a.batchItems, a.batches, code, t) {
      assert x in KeptRows(b, code) <==> x in KeptRows(a, code);
    }
  }

  lemma ReportUnmoved(a: Db, b: Db, code: Code, round: BatchId)
    requires Onward(a, b) && OnScreen(a, code, round) && Refs(a)
    requires |PendingSet(b, code, round)| == |PendingSet(a, code, round)|
    ensures code in b.sessions
    ensures BatchReport(b, code, round) == BatchReport(a, code, round)
            <==> NoKeepsAfter(b, code, round) && NoLateKeeps(a, b, code, round)
  {
    hide Refs, RoundsOnward, RowsOnward, KeptRows, PendingRows, NotKeptRows, NoKeepsAfter, NoLateKeeps;
    StillThere(a, b, code, round);
    PendingUnmoved(a, b, code, round);
    ShownBatchUnmoved(a, b, code, round);
    KeptRowsUnmoved(a, b, code, round);
    if KeptRows(b, code) == KeptRows(a, code) {
      ProgressFollowsKept(a, b, code, TRACK_ORDER);
    }
  }

  lemma LatestHasNoneAfter(db: Db, code: Code, round: BatchId)
    requires forall c | c in BatchesOf(db.batches, code) :: c <= round
    ensures NoKeepsAfter(db, code, round)
  {
    assert forall x | InSession(db.batchItems, db.batches, code, x) ::
        db.batchItems[x].batch in BatchesOf(db.batches, code);
  }

  // ------------------------------------------------------------ the page and the screen

  /** Some track is short of its target and `items` holds something eligible for
      it that the session has not been offered. */
  ghost predicate LeftToDeal(db: Db, code: Code, items: map<ItemId, Item>)
    requires code in db.sessions
  {
    exists t, i ::
      && t in db.sessions[code].targets && |Kept(db.batchItems, db.batches, code, t)| < db.sessions[code].targets[t]
      && Eligible(items, db.sessions[code].collection, t, i) && i !in Offered(db.batchItems, db.batches, code)
  }

  lemma NextAvailableMeans(db: Db, code: Code)
    requires Refs(db) && code in db.sessions
    ensures NextBatchAssembly(db, code).0.Some? <==> LeftToDeal(db, code, db.items)
  {
    NothingToDealMeans(db, code);
    AssemblyFinds(db, code, TRACK_ORDER);
    hide NextBatchAssembly, Kept, Offered, Eligible;
  }

  /** The options on the page for `a` have the same names in `items`. */
  ghost predicate NamesSame(a: Db, code: Code, round: BatchId, items: map<ItemId, Item>) {
    forall x | x in Listed(a, code, round) && a.batchItems[x].item in a.items ::
      a.batchItems[x].item in items && items[a.batchItems[x].item].name == a.items[a.batchItems[x].item].name
  }

  /** For the page rendered from `db`, the items of a later library read as they
      did: the listed options have their names, and there is something new left
      to deal exactly if there was. */
  ghost predicate LibraryReadsSame(db: Db, code: Code, b: BatchId, items: map<ItemId, Item>)
    requires code in db.sessions
  {
    && NamesSame(db, code, b, items)
    && (LeftToDeal(db, code, items) <==> LeftToDeal(db, code, db.items))
  }

  lemma SameLatestNoNewRound(a: Db, b: Db, code: Code, round: BatchId)
    requires Onward(a, b) && Latest(a, code, round) && round < a.nextBatch && Latest(b, code, round)
    ensures NoNewRound(a, b, code)
  {
  }

  lemma LeftFollows(a: Db, b: Db, code: Code)
    requires Onward(a, b) && NoNewRound(a, b, code) && Refs(a) && code in a.sessions
    requires KeptRows(b, code) == KeptRows(a, code)
    ensures code in b.sessions && (LeftToDeal(b, code, b.items) <==> LeftToDeal(a, code, b.items))
  {
    SameOptionsOffered(a, b, code);
    hide Refs, RoundsOnward, RowsOnward, KeptRows, Offered, Kept, Eligible, NoNewRound;
    forall t ensures Kept(b.batchItems, b.batches, code, t) == Kept(a.batchItems, a.batches, code, t) {
      SameKept(a, b, code, t);
    }
  }

  lemma ListedStays(a: Db, b: Db, code: Code, round: BatchId)
    requires Onward(a, b) && Latest(a, code, round) && KeptRows(b, code) == KeptRows(a, code)
    ensures Listed(b, code, round) == Listed(a, code, round)
    ensures forall x | x in Listed(a, code, round) && a.batchItems[x].batch in a.batches ::
              && x in b.batchItems && b.batchItems[x].item == a.batchItems[x].item
                 && b.batchItems[x].batch == a.batchItems[x].batch
              && b.batchItems[x].batch in b.batches
              && b.batches[b.batchItems[x].batch].seq_ == a.batches[a.batchItems[x].batch].seq_
  {
    assert round in a.batches;
    forall x ensures x in Listed(b, code, round) <==> x in Listed(a, code, round) {
      assert x in KeptRows(b, code) <==> x in KeptRows(a, code);
    }
  }

  lemma LinesAre(db: Db, code: Code, round: BatchId)
    requires Refs(db)
    ensures Lines(db, code, round).Keys == Listed(db, code, round)
    ensures forall x | x in Listed(db, code, round) ::
              && x in db.batchItems && db.batchItems[x].batch in db.batches && db.batchItems[x].item in db.items
              && Lines(db, code, round)[x]
                 == Line(db.batches[db.batchItems[x].batch].seq_, db.items[db.batchItems[x].item].name)
  {
    hide KeptRows;
  }

  lemma LinesTell(a: Db, b: Db, code: Code, round: BatchId)
    requires Onward(a, b) && Refs(a) && Refs(b) && Latest(a, code, round) && KeptRows(b, code) == KeptRows(a, code)
    requires Lines(b, code, round) == Lines(a, code, round)
    ensures NamesSame(a, code, round, b.items)
  {
    ListedStays(a, b, code, round);
    LinesAre(a, code, round);
    LinesAre(b, code, round);
    hide Onward, Refs, Latest, KeptRows, Listed, Lines;
    forall x | x in Listed(a, code, round)
      ensures b.items[a.batchItems[x].item].name == a.items[a.batchItems[x].item].name
    {
      assert Lines(a, code, round)[x] == Lines(b, code, round)[x];
    }
  }

  lemma LinesFollow(a: Db, b: Db, code: Code, round: BatchId)
    requires Onward(a, b) && Refs(a) && Refs(b) && Latest(a, code, round) && KeptRows(b, code) == KeptRows(a, code)
    requires NamesSame(a, code, round, b.items)
    ensures Lines(b, code, round) == Lines(a, code, round)
  {
    ListedStays(a, b, code, round);
    LinesAre(a, code, round);
    LinesAre(b, code, round);
    hide Onward, Refs, Latest, KeptRows, Listed, Lines;
    forall x | x in Listed(a, code, round) ensures Lines(b, code, round)[x] == Lines(a, code, round)[x] {
      assert a.batchItems[x].item in b.items;
    }
  }

  /** With the same report, the page is the same exactly if the library reads the
      same. */
  lemma PageSame(a: Db, b: Db, code: Code, round: BatchId)
    requires Onward(a, b) && Refs(a) && Refs(b) && OnScreen(a, code, round) && OnScreen(b, code, round)
    requires BatchReport(b, code, round) == BatchReport(a, code, round)
    ensures ResultsPage(b, code, round) == ResultsPage(a, code, round) <==> LibraryReadsSame(a, code, round, b.items)
  {
    assert KeptRows(b, code) == KeptRows(a, code);
    if Lines(b, code, round) == Lines(a, code, round) {
      LinesTell(a, b, code, round);
    }
    if NamesSame(a, code, round, b.items) {
      LinesFollow(a, b, code, round);
    }
    assert round in BatchesOf(a.batches, code);
    hide TrackProgress, KeptRows, PendingRows, NotKeptRows;
    SameLatestNoNewRound(a, b, code, round);
    LeftFollows(a, b, code);
    NextAvailableMeans(a, code);
    NextAvailableMeans(b, code);
    hide Onward, NoNewRound, NextBatchAssembly, LeftToDeal, Lines, Listed, Latest, Refs, NamesSame;
  }

  // ------------------------------------------------------------ when the poll is quiet

  /** The results poll is quiet exactly while the session is live and has not been
      silent for a day, no other batch of it is open, and the count the page was
      rendered with, if it sends one for a batch of the session, is still the
      number of that batch's options without an outcome; else the page reloads. */
  lemma QuietExactly(db: Db, code: Code, b: BatchId, pending: Option<int>, now: int)
    requires Newest(db.batches) && code in db.sessions
    ensures var poll := ResultsState(db, code, b, pending, now).1;
            && (poll == Quiet
                <==> (db.sessions[code].status == Lobby || db.sessions[code].status == Voting)
                     && !(code in db.activity && db.activity[code] < now - 86400)
                     && (forall c | c in db.batches && db.batches[c].session == code && db.batches[c].open :: c == b)
                     && (pending.None? || b !in db.batches || db.batches[b].session != code
                         || |Waiting(db, b)| == pending.value))
            && (poll != Quiet ==> poll == Refresh)
  {
    ExpirySpares(db, code, now);
    if c :| c in OpenBatches(db.batches, code) {
      OneOpenBatch(db, code, c);
      assert db.batches[c].open;
    }
    NoneOpenIsNone(db, code);
    if b in db.batches && db.batches[b].session == code {
      assert PendingSet(db, code, b) == Waiting(db, b);
      assert PendingCount(db, code, b) == |PendingSet(db, code, b)|;
    }
    hide PendingCount, PendingSet, Waiting, OpenBatches, OpenOptions;
  }

  /** The options of a batch without an outcome. */
  function Waiting(db: Db, b: BatchId): set<BatchItemId> {
    set x | x in db.batchItems && db.batchItems[x].batch == b && db.batchItems[x].outcome.None?
  }

  lemma NoneOpenIsNone(db: Db, code: Code)
    ensures OpenBatches(db.batches, code) == {}
            <==> forall c | c in db.batches && db.batches[c].session == code :: !db.batches[c].open
  {
    if c :| c in db.batches && db.batches[c].session == code && db.batches[c].open {
      assert c in OpenBatches(db.batches, code);
    }
  }

  /** So a page just rendered is not told to reload. */
  lemma FreshPageIsQuiet(db: Db, code: Code, b: BatchId, now: int)
    requires Newest(db.batches) && OnScreen(db, code, b) && !(code in db.activity && db.activity[code] < now - 86400)
    ensures ResultsState(db, code, b, Some(|PendingRows(db, b)|), now).1 == Quiet
  {
    QuietExactly(db, code, b, Some(|PendingRows(db, b)|), now);
    NoneOpenIsNone(db, code);
    assert PendingRows(db, b).Keys == Waiting(db, b);
    KeysCount(PendingRows(db, b));
    hide ResultsState, PendingRows, Waiting;
  }

  /** What a results page says: every kept option of the session, and of its batch
      those waiting for the host and those not kept, so that each option of the
      batch is on it; a line for each, with its batch's number and its item's
      name; and whether some track wants a next batch. */
  lemma ReportAccounts(db: Db, code: Code, b: BatchId)
    requires Refs(db) && code in db.sessions && b in BatchesOf(db.batches, code)
    ensures var page := ResultsPage(db, code, b);
            var r := page.report;
            && (forall x :: x in r.kept
                  <==> x in db.batchItems && db.batchItems[x].batch in db.batches
                       && db.batches[db.batchItems[x].batch].session == code
                       && (db.batchItems[x].outcome == Some(KeptUnanimous)
                           || db.batchItems[x].outcome == Some(KeptHost)))
            && (forall x :: x in r.pending
                  <==> x in db.batchItems && db.batchItems[x].batch == b && db.batchItems[x].outcome == None)
            && (forall x :: x in r.notKept
                  <==> x in db.batchItems && db.batchItems[x].batch == b && db.batchItems[x].outcome == Some(NotKept))
            && (forall x | x in r.kept :: r.kept[x] == db.batchItems[x])
            && (forall x | x in r.pending :: r.pending[x] == db.batchItems[x])
            && (forall x | x in r.notKept :: r.notKept[x] == db.batchItems[x])
            && (forall x | x in db.batchItems && db.batchItems[x].batch == b ::
                  x in r.kept || x in r.pending || x in r.notKept)
    ensures var page := ResultsPage(db, code, b);
            && (forall x :: x in page.lines <==> x in page.report.kept || x in page.report.pending
                                                 || x in page.report.notKept)
            && (forall x | x in page.lines ::
                  && x in db.batchItems && db.batchItems[x].batch in db.batches && db.batchItems[x].item in db.items
                  && page.lines[x].seq_ == db.batches[db.batchItems[x].batch].seq_
                  && page.lines[x].name == db.items[db.batchItems[x].item].name)
            && (page.nextAvailable <==> exists t :: Dealings.Wants(db, code, t))
  {
    LinesAre(db, code, b);
    Dealings.NextTrackIsFirst(db, code);
    forall x | x in ItemsOf(db.batchItems, b)
      ensures x in KeptRows(db, code) || x in PendingRows(db, b) || x in NotKeptRows(db, b)
    {
      OnTheReport(db, code, b, x);
    }
    hide Refs, TrackProgress, NextBatchAssembly, Dealings.Wants, Lines;
  }

  lemma OnTheReport(db: Db, code: Code, b: BatchId, x: BatchItemId)
    requires b in BatchesOf(db.batches, code) && x in ItemsOf(db.batchItems, b)
    ensures x in KeptRows(db, code) || x in PendingRows(db, b) || x in NotKeptRows(db, b)
  {
    match db.batchItems[x].outcome
    case None =>
    case Some(KeptUnanimous) =>
    case Some(KeptHost) =>
    case Some(NotKept) =>
  }

  // ------------------------------------------------------------ what a quiet poll means

  /** A page rendered after the requests `before` polls after the further requests
      `actions` with the pending count it was rendered with. If the poll stays
      quiet, what the batch reports is still the truth exactly when no later
      batch has kept anything and nothing undecided in an earlier batch has been
      kept since. */
  lemma QuietReport(before: seq<Action>, actions: seq<Action>, code: Code, round: BatchId, now: int)
    ensures var a, b := Reached(before), Run(Reached(before), actions);
            OnScreen(a, code, round)
              && ResultsState(b, code, round, Some(PendingCount(a, code, round)), now).1 == Quiet ==>
            && code in b.sessions
            && (BatchReport(b, code, round) == BatchReport(a, code, round)
                <==> NoKeepsAfter(b, code, round) && NoLateKeeps(a, b, code, round))
  {
    var a, b := Reached(before), Run(Reached(before), actions);
    hide Targets, Rosters, Rounds, Newest, Sizes, Sourced, DealOrder, Reported, Tallies, Ballots, Counters, NoneOverdue;
    hide Refs, Onward, OnScreen, ResultsState, BatchReport, NoKeepsAfter, NoLateKeeps, Run;
    ReachedKeeps(before);
    RunOnward(a, actions);
    if OnScreen(a, code, round) && ResultsState(b, code, round, Some(PendingCount(a, code, round)), now).1 == Quiet {
      StillThere(a, b, code, round);
      QuietMeans(b, code, round, PendingCount(a, code, round), now);
      assert PendingCount(a, code, round) == |PendingSet(a, code, round)|;
      ReportUnmoved(a, b, code, round);
    }
  }

  /** While its batch is the latest, a quiet page's batch is the one on screen. */
  lemma QuietLatest(db: Db, code: Code, round: BatchId, pending: int, now: int)
    requires Rounds(db.sessions, db.batches) && Newest(db.batches) && code in db.sessions && Latest(db, code, round)
    requires ResultsState(db, code, round, Some(pending), now).1 == Quiet && !db.batches[round].open
    ensures OnScreen(db, code, round)
  {
    QuietMeans(db, code, round, pending, now);
    forall c | c in OpenBatches(db.batches, code) ensures c == round {
      OneOpenBatch(db, code, c);
    }
  }

  /** The truth of a quiet poll: the session page would be the very same now
      exactly when the shown batch is still the latest, nothing undecided in an
      earlier batch has been kept since, and the library reads the same. */
  lemma QuietPoll(before: seq<Action>, actions: seq<Action>, code: Code, round: BatchId, now: int)
    ensures var a, b := Reached(before), Run(Reached(before), actions);
            OnScreen(a, code, round)
              && ResultsState(b, code, round, Some(PendingCount(a, code, round)), now).1 == Quiet ==>
            (ScreenOf(b, code) == ScreenOf(a, code)
             <==> Latest(b, code, round) && NoLateKeeps(a, b, code, round) && LibraryReadsSame(a, code, round, b.items))
  {
    var a, b := Reached(before), Run(Reached(before), actions);
    var pending := PendingCount(a, code, round);
    hide Targets, Rosters, Sizes, Sourced, DealOrder, Reported, Tallies, Ballots, Counters, NoneOverdue, Rounds, Newest;
    hide RoundsOnward, RowsOnward, ResultsState, BatchReport, NoKeepsAfter, NoLateKeeps, Run, LibraryReadsSame;
    ReachedKeeps(before);
    RunKeeps(a, actions);
    RunOnward(a, actions);
    if OnScreen(a, code, round) && ResultsState(b, code, round, Some(pending), now).1 == Quiet {
      QuietReport(before, actions, code, round, now);
      StillThere(a, b, code, round);
      StaysShut(a, b, code, round);
      hide Refs, Onward, PendingCount, Latest;
      ScreenShows(a, code, round);
      if Latest(b, code, round) {
        LatestHasNoneAfter(b, code, round);
        QuietLatest(b, code, round, pending, now);
        ScreenShows(b, code, round);
        if BatchReport(b, code, round) == BatchReport(a, code, round) {
          PageSame(a, b, code, round);
        }
      } else {
        ScreenElsewhere(b, code, round);
      }
    }
  }

  lemma StaysShut(a: Db, b: Db, code: Code, round: BatchId)
    requires Onward(a, b) && OnScreen(a, code, round)
    ensures round in b.batches && !b.batches[round].open
  {
    assert round !in OpenBatches(a.batches, code);
  }

  lemma ScreenElsewhere(db: Db, code: Code, round: BatchId)
    requires !Latest(db, code, round)
    ensures ScreenOf(db, code).ResultsScreen? ==> ScreenOf(db, code).batch != round
  {
    hide Latest, ResultsPage;
  }

  lemma ShelfReadsSame(db: Db, items: map<ItemId, Item>, code: Code, round: BatchId)
    requires Sourced(db.sessions, db.items, db.batches, db.batchItems) && OnScreen(db, code, round)
    requires SameShelf(db.items, items, db.sessions[code].collection)
    ensures LibraryReadsSame(db, code, round, items)
  {
    assert round in BatchesOf(db.batches, code);
    var ours := db.sessions[code].collection;
    assert forall x | x in Listed(db, code, round) :: Some(db.items[db.batchItems[x].item].collection) == ours;
    forall t, i ensures Eligible(items, ours, t, i) <==> Eligible(db.items, ours, t, i) {
    }
  }

  /** With the session's collection left alone since, the library always reads
      the same. */
  lemma QuietPollUnedited(before: seq<Action>, actions: seq<Action>, code: Code, round: BatchId, now: int)
    requires CollectionStands(Reached(before), actions, code)
    ensures var a, b := Reached(before), Run(Reached(before), actions);
            OnScreen(a, code, round)
              && ResultsState(b, code, round, Some(PendingCount(a, code, round)), now).1 == Quiet ==>
            (ScreenOf(b, code) == ScreenOf(a, code) <==> Latest(b, code, round) && NoLateKeeps(a, b, code, round))
  {
    var a, b := Reached(before), Run(Reached(before), actions);
    hide Refs, Targets, Rosters, Rounds, Newest, Sizes, DealOrder, Reported, Tallies, Ballots, Counters, NoneOverdue;
    hide Sourced;
    hide ResultsState, Latest, NoLateKeeps, LibraryReadsSame, CollectionStands, SameShelf, Run, ScreenOf;
    ReachedKeeps(before);
    QuietPoll(before, actions, code, round, now);
    if OnScreen(a, code, round) {
      RunShelf(a, actions, code);
      ShelfReadsSame(a, b.items, code, round);
    }
  }

  /** So a page can trust a quiet poll if, when it was rendered, nothing was
      undecided outside the shown batch, and that batch is still the latest. */
  lemma QuietPollTrusted(before: seq<Action>, actions: seq<Action>, code: Code, round: BatchId, now: int)
    requires CollectionStands(Reached(before), actions, code)
    ensures var a, b := Reached(before), Run(Reached(before), actions);
            && OnScreen(a, code, round) && Undecided(a.batchItems, a.batches, code) <= ItemsOf(a.batchItems, round)
            && ResultsState(b, code, round, Some(PendingCount(a, code, round)), now).1 == Quiet
            && Latest(b, code, round) ==>
            ScreenOf(b, code) == ScreenOf(a, code)
  {
    var a, b := Reached(before), Run(Reached(before), actions);
    hide ResultsState, ScreenOf, CollectionStands, Run, Latest;
    QuietPollUnedited(before, actions, code, round, now);
    if OnScreen(a, code, round) && Undecided(a.batchItems, a.batches, code) <= ItemsOf(a.batchItems, round) {
      NothingLate(a, b, code, round);
    }
  }

  lemma NothingLate(a: Db, b: Db, code: Code, round: BatchId)
    requires OnScreen(a, code, round) && Undecided(a.batchItems, a.batches, code) <= ItemsOf(a.batchItems, round)
    ensures NoLateKeeps(a, b, code, round)
  {
    forall x | InSession(a.batchItems, a.batches, code, x) && a.batchItems[x].batch < round
      ensures a.batchItems[x].outcome.Some?
    {
      assert a.batchItems[x].batch !in OpenBatches(a.batches, code);
      assert a.batchItems[x].outcome.None? ==> x in Undecided(a.batchItems, a.batches, code);
    }
  }

  lemma StillThere(a: Db, b: Db, code: Code, round: BatchId)
    requires Onward(a, b) && OnScreen(a, code, round)
    ensures code in b.sessions && round in BatchesOf(b.batches, code)
  {
  }

  // ------------------------------------------------------------ the card poll

  /** The card's poll is quiet exactly while its batch is the session's open
      batch and the session has not ended, nor been silent for a day. */
  lemma CardQuiet(db: Db, code: Code, b: BatchId, now: int)
    requires Newest(db.batches) && code in db.sessions
    ensures CardState(db, code, b, now).1 == Quiet
            <==> b in db.batches && db.batches[b].session == code && db.batches[b].open
                 && (db.sessions[code].status == Lobby || db.sessions[code].status == Voting)
                 && !(code in db.activity && db.activity[code] < now - 86400)
  {
    if b in OpenBatches(db.batches, code) {
      OneOpenBatch(db, code, b);
    }
  }
}
