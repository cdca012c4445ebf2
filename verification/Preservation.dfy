/** Every handler keeps the invariant, hence every run does. */
module Preservation {
  import opened Prelude
  import opened SessionLogic
  import opened Tables
  import opened Handlers
  import opened Invariants

  // ------------------------------------------------------------ ending a session

  function Ended(db: Db, code: Code, status: Status): Db
    requires code in db.sessions
  {
    DropRoster(SetStatus(db, code, status), code)
  }

  /** Rows other than the session's own keep their session's row. */
  lemma EndedRosters(db: Db, code: Code, status: Status)
    requires Rosters(db.sessions, db.people) && code in db.sessions && !Live(status)
    ensures var after := Ended(db, code, status);
            Rosters(after.sessions, after.people)
  {
    var after := Ended(db, code, status);
    forall c | c in after.sessions && Live(after.sessions[c].status)
      ensures RowsOf(after.people, c, after.sessions[c].host) != {}
    {
      assert RowsOf(after.people, c, after.sessions[c].host) == RowsOf(db.people, c, db.sessions[c].host);
    }
  }

  lemma EndedTallies(db: Db, code: Code, status: Status)
    requires Tallies(db.sessions, db.people, db.batches, db.batchItems) && code in db.sessions && !Live(status)
    ensures var after := Ended(db, code, status);
            Tallies(after.sessions, after.people, after.batches, after.batchItems)
  {
    var after := Ended(db, code, status);
    forall c, x | ClosedIn(after.batches, after.batchItems, c, x) && c in after.sessions
                  && after.sessions[c].status == Voting
      ensures Votes(after.batchItems[x]) == |Roster(after.people, c)|
    {
      assert Roster(after.people, c) == Roster(db.people, c);
    }
  }

  lemma EndedBallots(db: Db, code: Code, status: Status)
    requires Refs(db) && Ballots(db.sessions, db.people, db.batches, db.batchItems, db.responses)
    requires code in db.sessions && !Live(status)
    requires forall k | k in db.responses :: db.people[k.voter].session != code
    ensures var after := Ended(db, code, status);
            Refs(after) && Ballots(after.sessions, after.people, after.batches, after.batchItems, after.responses)
  {
  }

  lemma EndedRounds(db: Db, code: Code, status: Status)
    requires Rounds(db.sessions, db.batches) && code in db.sessions && !Live(status)
    requires status == Complete ==> OpenBatches(db.batches, code) == {}
    ensures var after := Ended(db, code, status);
            Rounds(after.sessions, after.batches)
  {
    var after := Ended(db, code, status);
    forall b | b in after.batches && after.batches[b].open
      ensures after.sessions[after.batches[b].session].status in {Voting, Expired}
    {
      assert after.batches[b].session == code ==> b in OpenBatches(db.batches, code);
    }
  }

  lemma EndedNoneOverdue(db: Db, code: Code, status: Status)
    requires NoneOverdue(db.sessions, db.people, db.batches, db.batchItems, db.responses)
    requires code in db.sessions && !Live(status)
    ensures var after := Ended(db, code, status);
            NoneOverdue(after.sessions, after.people, after.batches, after.batchItems, after.responses)
  {
    var after := Ended(db, code, status);
    forall b | b in after.batches && after.batches[b].open && after.batches[b].session in after.sessions
               && after.sessions[after.batches[b].session].status == Voting
      ensures !AllAnswered(after.responses, ItemsOf(after.batchItems, b),
                           Roster(after.people, after.batches[b].session))
    {
      assert Roster(after.people, after.batches[b].session) == Roster(db.people, after.batches[b].session);
    }
  }

  lemma EndedSourced(db: Db, code: Code, status: Status)
    requires Targets(db.sessions) && Sourced(db.sessions, db.items, db.batches, db.batchItems) && code in db.sessions
    ensures var after := Ended(db, code, status);
            Targets(after.sessions) && Sourced(after.sessions, after.items, after.batches, after.batchItems)
  {
  }

  lemma EndKeeps(db: Db, code: Code, status: Status)
    requires Inv(db) && code in db.sessions && !Live(status)
    requires forall k | k in db.responses :: k.voter in db.people && db.people[k.voter].session != code
    requires status == Complete ==> OpenBatches(db.batches, code) == {}
    ensures Inv(Ended(db, code, status))
  {
    EndedRosters(db, code, status);
    EndedTallies(db, code, status);
    EndedBallots(db, code, status);
    EndedRounds(db, code, status);
    EndedSourced(db, code, status);
    EndedNoneOverdue(db, code, status);
  }

  lemma FewerBallotsNoneOverdue(db: Db, options: set<BatchItemId>)
    requires NoneOverdue(db.sessions, db.people, db.batches, db.batchItems, db.responses)
    ensures var after := DropBallots(db, options);
            NoneOverdue(after.sessions, after.people, after.batches, after.batchItems, after.responses)
  {
    var after := DropBallots(db, options);
    forall b | b in after.batches && after.batches[b].open && after.batches[b].session in after.sessions
               && after.sessions[after.batches[b].session].status == Voting
      ensures !AllAnswered(after.responses, ItemsOf(after.batchItems, b),
                           Roster(after.people, after.batches[b].session))
    {
      var roster := Roster(db.people, after.batches[b].session);
      var x, p :| x in ItemsOf(db.batchItems, b) && p in roster && Ballot(x, p) !in db.responses;
      assert Ballot(x, p) !in after.responses;
    }
  }

  lemma FewerBallotsRefs(db: Db, options: set<BatchItemId>)
    requires Refs(db) && Ballots(db.sessions, db.people, db.batches, db.batchItems, db.responses)
    ensures var after := DropBallots(db, options);
            Refs(after) && Ballots(after.sessions, after.people, after.batches, after.batchItems, after.responses)
  {
  }

  lemma FewerBallotsKeep(db: Db, options: set<BatchItemId>)
    requires Inv(db)
    ensures Inv(DropBallots(db, options))
  {
    hide Refs, Targets, Rosters, Rounds, Newest, Sizes, Sourced;
    hide DealOrder, Reported, Tallies, Ballots, Counters, NoneOverdue;
    FewerBallotsRefs(db, options);
    FewerBallotsNoneOverdue(db, options);
  }

  /** Deleting the open batch's rows deletes every row the roster owns. */
  lemma OpenBallotsGone(db: Db, code: Code)
    requires Ballots(db.sessions, db.people, db.batches, db.batchItems, db.responses)
    ensures forall k | k in DropBallots(db, OpenOptions(db, code)).responses ::
              k.voter in db.people && db.people[k.voter].session != code
  {
  }

  lemma ExpiryKeeps(db: Db, code: Code, now: int)
    requires Inv(db) && code in db.sessions
    ensures Inv(ExpireIfStale(db, code, now))
  {
    hide Refs, Targets, Rosters, Rounds, Newest, Sizes, Sourced;
    hide DealOrder, Reported, Tallies, Ballots, Counters, NoneOverdue;
    if Stale(db, code, now) {
      OpenBallotsGone(db, code);
      FewerBallotsKeep(db, OpenOptions(db, code));
      EndKeeps(DropBallots(db, OpenOptions(db, code)), code, Expired);
      assert ExpireIfStale(db, code, now) == Ended(DropBallots(db, OpenOptions(db, code)), code, Expired);
    }
  }

  // ------------------------------------------------------------ closing a batch

  lemma TalliedIsJudged(row: BatchItem, yes: int, roster: int)
    requires Unreported(row) && 0 <= yes <= roster && roster > 0
    ensures Judged(Tallied(row, yes, roster)) && Votes(Tallied(row, yes, roster)) == roster
  {
  }

  lemma CloseReports(db: Db, code: Code, b: BatchId)
    requires Refs(db) && Rosters(db.sessions, db.people) && Reported(db.batches, db.batchItems)
    requires Ballots(db.sessions, db.people, db.batches, db.batchItems, db.responses)
    requires b in OpenBatches(db.batches, code) && db.sessions[code].status == Voting
    ensures var after := CloseRound(db, code, b);
            && Reported(after.batches, after.batchItems)
            && forall x | x in ItemsOf(db.batchItems, b) ::
                 Judged(after.batchItems[x]) && Votes(after.batchItems[x]) == |Roster(db.people, code)|
  {
    var after := CloseRound(db, code, b);
    HostedRosterNonempty(db, code);
    hide Rosters, Ballots, Roster, YesVoters;
    forall x | x in db.batchItems && db.batchItems[x].batch == b
      ensures Judged(after.batchItems[x]) && Votes(after.batchItems[x]) == |Roster(db.people, code)|
    {
      YesWithinRoster(db, x);
      TalliedIsJudged(db.batchItems[x], |YesVoters(db.responses, x)|, |Roster(db.people, code)|);
    }
  }

  lemma CloseSums(db: Db, code: Code, b: BatchId)
    requires Tallies(db.sessions, db.people, db.batches, db.batchItems)
    requires code in db.sessions && b in OpenBatches(db.batches, code) && db.sessions[code].status == Voting
    requires var after := CloseRound(db, code, b);
             forall x | x in ItemsOf(db.batchItems, b) :: Votes(after.batchItems[x]) == |Roster(db.people, code)|
    ensures var after := CloseRound(db, code, b);
            Tallies(after.sessions, after.people, after.batches, after.batchItems)
  {
    var after := CloseRound(db, code, b);
    forall c, x | ClosedIn(after.batches, after.batchItems, c, x)
      ensures c == code ==> Votes(after.batchItems[x]) == |Roster(db.people, code)|
      ensures x in ItemsOf(db.batchItems, b)
              || (ClosedIn(db.batches, db.batchItems, c, x) && after.batchItems[x] == db.batchItems[x])
    {
    }
  }

  /** Closing keeps all tallies of a session at one roster size: every closed
      option is judged, with as many votes as there are participants. */
  lemma CloseTallies(db: Db, code: Code, b: BatchId)
    requires Refs(db) && Rosters(db.sessions, db.people) && Reported(db.batches, db.batchItems)
    requires Ballots(db.sessions, db.people, db.batches, db.batchItems, db.responses)
    requires Tallies(db.sessions, db.people, db.batches, db.batchItems)
    requires code in db.sessions && b in OpenBatches(db.batches, code) && db.sessions[code].status == Voting
    ensures var after := CloseRound(db, code, b);
            && Reported(after.batches, after.batchItems)
            && Tallies(after.sessions, after.people, after.batches, after.batchItems)
            && forall x | x in ItemsOf(db.batchItems, b) ::
                 x in after.batchItems && Judged(after.batchItems[x])
                   && Votes(after.batchItems[x]) == |Roster(db.people, code)|
  {
    CloseReports(db, code, b);
    CloseSums(db, code, b);
    ClosedKeys(db, code, b);
    hide Refs, Rosters, Ballots, Reported, Tallies, CloseRound, ItemsOf, Judged, Votes;
  }

  lemma ClosedKeys(db: Db, code: Code, b: BatchId)
    requires b in db.batches
    ensures forall x | x in ItemsOf(db.batchItems, b) :: x in CloseRound(db, code, b).batchItems
  {
    hide CountTable, Tallied, YesVoters;
  }

  /** A set that splits into two disjoint parts has their sizes' sum. */
  lemma SplitSize<T>(whole: set<T>, a: set<T>, b: set<T>)
    requires forall x :: x in whole <==> x in a || x in b
    requires forall x | x in a :: x !in b
    ensures |whole| == |a| + |b|
  {
    assert whole == a + b;
    assert a !! b;
  }

  lemma CloseOffers(batches: map<BatchId, Batch>, batchItems: map<BatchItemId, BatchItem>,
                    responses: map<Ballot, Choice>, roster: int, b: BatchId, i: ItemId)
    requires b in batches && batches[b].open
    ensures var options := ItemsOf(batchItems, b);
            var tallied := TallyTable(batchItems, responses, options, roster);
            |OfferRows(tallied, ShutTable(batches, b), i)|
              == |OfferRows(batchItems, batches, i)| + |Shown(tallied, options, i)|
  {
    var options := ItemsOf(batchItems, b);
    var tallied := TallyTable(batchItems, responses, options, roster);
    SplitSize(OfferRows(tallied, ShutTable(batches, b), i), OfferRows(batchItems, batches, i),
              Shown(tallied, options, i));
  }

  /** Before the close no option of the batch is kept; after it, those all agreed on are. */
  lemma CloseKeepsRows(batches: map<BatchId, Batch>, batchItems: map<BatchItemId, BatchItem>,
                       responses: map<Ballot, Choice>, roster: int, b: BatchId, i: ItemId)
    requires Reported(batches, batchItems) && b in batches && batches[b].open
    ensures var options := ItemsOf(batchItems, b);
            var tallied := TallyTable(batchItems, responses, options, roster);
            |KeepRows(tallied, ShutTable(batches, b), i)|
              == |KeepRows(batchItems, batches, i)| + |ShownAndKept(tallied, options, i)|
  {
    var options := ItemsOf(batchItems, b);
    var tallied := TallyTable(batchItems, responses, options, roster);
    forall x | x in options ensures IsKept(tallied[x].outcome) <==> tallied[x].outcome == Some(KeptUnanimous) {
      assert Unreported(batchItems[x]);
    }
    SplitSize(KeepRows(tallied, ShutTable(batches, b), i), KeepRows(batchItems, batches, i),
              ShownAndKept(tallied, options, i));
  }

  lemma CloseCounts(items: map<ItemId, Item>, batches: map<BatchId, Batch>, batchItems: map<BatchItemId, BatchItem>,
                    responses: map<Ballot, Choice>, roster: int, b: BatchId)
    requires Counters(items, batches, batchItems) && Reported(batches, batchItems)
    requires b in batches && batches[b].open
    ensures var options := ItemsOf(batchItems, b);
            var tallied := TallyTable(batchItems, responses, options, roster);
            Counters(CountTable(items, tallied, options), ShutTable(batches, b), tallied)
  {
    var options := ItemsOf(batchItems, b);
    var tallied := TallyTable(batchItems, responses, options, roster);
    forall i | i in items
      ensures items[i].timesOffered + |Shown(tallied, options, i)| == |OfferRows(tallied, ShutTable(batches, b), i)|
      ensures items[i].timesKept + |ShownAndKept(tallied, options, i)| == |KeepRows(tallied, ShutTable(batches, b), i)|
    {
      CloseOffers(batches, batchItems, responses, roster, b, i);
      CloseKeepsRows(batches, batchItems, responses, roster, b, i);
    }
  }

  lemma CloseRounds(sessions: map<Code, Session>, batches: map<BatchId, Batch>, b: BatchId)
    requires b in batches && Rounds(sessions, batches) && Newest(batches)
    ensures Rounds(sessions, ShutTable(batches, b)) && Newest(ShutTable(batches, b))
  {
  }

  lemma CloseSizes(batches: map<BatchId, Batch>, batchItems: map<BatchItemId, BatchItem>,
                   responses: map<Ballot, Choice>, roster: int, b: BatchId, options: set<BatchItemId>)
    requires b in batches && Sizes(batches, batchItems)
    ensures Sizes(ShutTable(batches, b), TallyTable(batchItems, responses, options, roster))
  {
    forall c | c in batches
      ensures ItemsOf(TallyTable(batchItems, responses, options, roster), c) == ItemsOf(batchItems, c)
    {
    }
  }

  lemma CloseRefs(db: Db, code: Code, b: BatchId)
    requires Refs(db) && b in db.batches
    ensures Refs(CloseRound(db, code, b))
  {
  }

  lemma CloseSourced(sessions: map<Code, Session>, items: map<ItemId, Item>, batches: map<BatchId, Batch>,
                     batchItems: map<BatchItemId, BatchItem>, responses: map<Ballot, Choice>, roster: int, b: BatchId,
                     options: set<BatchItemId>)
    requires b in batches && Sourced(sessions, items, batches, batchItems)
    ensures var tallied := TallyTable(batchItems, responses, options, roster);
            Sourced(sessions, CountTable(items, tallied, options), ShutTable(batches, b), tallied)
  {
  }

  lemma CloseDealOrder(batchItems: map<BatchItemId, BatchItem>, responses: map<Ballot, Choice>, roster: int,
                       options: set<BatchItemId>)
    requires DealOrder(batchItems)
    ensures DealOrder(TallyTable(batchItems, responses, options, roster))
  {
  }

  lemma CloseBallots(db: Db, code: Code, b: BatchId)
    requires b in db.batches && Ballots(db.sessions, db.people, db.batches, db.batchItems, db.responses)
    ensures var after := CloseRound(db, code, b);
            Ballots(after.sessions, after.people, after.batches, after.batchItems, after.responses)
  {
  }

  lemma CloseKeeps(db: Db, code: Code, b: BatchId)
    requires Valid(db)
    requires code in db.sessions && b in OpenBatches(db.batches, code) && db.sessions[code].status == Voting
    ensures Valid(CloseRound(db, code, b))
  {
    CloseTallies(db, code, b);
    var roster, options := |Roster(db.people, code)|, ItemsOf(db.batchItems, b);
    CloseCounts(db.items, db.batches, db.batchItems, db.responses, roster, b);
    CloseRefs(db, code, b);
    CloseRounds(db.sessions, db.batches, b);
    CloseSizes(db.batches, db.batchItems, db.responses, roster, b, options);
    CloseSourced(db.sessions, db.items, db.batches, db.batchItems, db.responses, roster, b, options);
    CloseDealOrder(db.batchItems, db.responses, roster, options);
    CloseBallots(db, code, b);
  }

  /** Closing an overdue batch leaves nothing overdue, if nothing else was. */
  lemma CloseNoneOverdue(db: Db, code: Code, b: BatchId)
    requires b in db.batches
    requires forall c | c in db.batches && c != b && db.batches[c].open && db.batches[c].session in db.sessions
                        && db.sessions[db.batches[c].session].status == Voting ::
               !AllAnswered(db.responses, ItemsOf(db.batchItems, c), Roster(db.people, db.batches[c].session))
    ensures var after := CloseRound(db, code, b);
            db.batches[b].open ==>
            NoneOverdue(after.sessions, after.people, after.batches, after.batchItems, after.responses)
  {
    var after := CloseRound(db, code, b);
    if db.batches[b].open {
      forall c | c in after.batches && after.batches[c].open && after.batches[c].session in after.sessions
                 && after.sessions[after.batches[c].session].status == Voting
        ensures !AllAnswered(after.responses, ItemsOf(after.batchItems, c),
                             Roster(after.people, after.batches[c].session))
      {
        var roster := Roster(db.people, db.batches[c].session);
        var x, p :| x in ItemsOf(db.batchItems, c) && p in roster && Ballot(x, p) !in db.responses;
        assert x in ItemsOf(after.batchItems, c) && Ballot(x, p) !in after.responses;
      }
    }
  }

  // ------------------------------------------------------------ decisions

  /** The given options are closed and still undecided. */
  ghost predicate Pending(batches: map<BatchId, Batch>, batchItems: map<BatchItemId, BatchItem>, ids: set<BatchItemId>)
  {
    forall x | x in ids ::
      x in batchItems && batchItems[x].batch in batches && !batches[batchItems[x].batch].open
        && batchItems[x].outcome.None?
  }

  /** Outcomes of pending options are the only thing a decision writes. */
  ghost predicate Decided(before: map<BatchItemId, BatchItem>, after: map<BatchItemId, BatchItem>,
                          ids: set<BatchItemId>)
  {
    && after.Keys == before.Keys
    && (forall x | x in before :: after[x] == before[x].(outcome := after[x].outcome))
    && (forall x | x in before && x !in ids :: after[x] == before[x])
    && (forall x | x in before && x in ids :: after[x].outcome == Some(KeptHost) || after[x].outcome == Some(NotKept))
  }

  lemma DecidedStructure(db: Db, after: map<BatchItemId, BatchItem>, ids: set<BatchItemId>)
    requires Decided(db.batchItems, after, ids)
    requires Sizes(db.batches, db.batchItems) && DealOrder(db.batchItems)
    ensures Sizes(db.batches, after) && DealOrder(after)
  {
    forall b | b in db.batches ensures ItemsOf(after, b) == ItemsOf(db.batchItems, b) {
    }
  }

  lemma DecidedTallies(db: Db, after: map<BatchItemId, BatchItem>, ids: set<BatchItemId>)
    requires Decided(db.batchItems, after, ids)
    requires Tallies(db.sessions, db.people, db.batches, db.batchItems)
    ensures Tallies(db.sessions, db.people, db.batches, after)
  {
    assert forall c, x :: ClosedIn(db.batches, after, c, x) <==> ClosedIn(db.batches, db.batchItems, c, x);
  }

  lemma DecidedReported(db: Db, after: map<BatchItemId, BatchItem>, ids: set<BatchItemId>)
    requires Decided(db.batchItems, after, ids) && Pending(db.batches, db.batchItems, ids)
    requires Reported(db.batches, db.batchItems)
    requires Sourced(db.sessions, db.items, db.batches, db.batchItems)
    ensures Reported(db.batches, after) && Sourced(db.sessions, db.items, db.batches, after)
  {
  }

  lemma DecidedBallots(db: Db, after: map<BatchItemId, BatchItem>, ids: set<BatchItemId>)
    requires Decided(db.batchItems, after, ids) && Refs(db)
    requires Ballots(db.sessions, db.people, db.batches, db.batchItems, db.responses)
    ensures Refs(db.(batchItems := after))
    ensures Ballots(db.sessions, db.people, db.batches, after, db.responses)
  {
  }

  lemma DecidedNoneOverdue(db: Db, after: map<BatchItemId, BatchItem>, ids: set<BatchItemId>)
    requires Decided(db.batchItems, after, ids)
    requires NoneOverdue(db.sessions, db.people, db.batches, db.batchItems, db.responses)
    ensures NoneOverdue(db.sessions, db.people, db.batches, after, db.responses)
  {
    forall b | b in db.batches ensures ItemsOf(after, b) == ItemsOf(db.batchItems, b) {
    }
  }

  lemma PassKeeps(db: Db, ids: set<BatchItemId>)
    requires Inv(db) && Pending(db.batches, db.batchItems, ids)
    ensures Inv(PassAll(db, ids))
  {
    hide Refs, Targets, Rosters, Rounds, Newest, Sizes, Sourced;
    hide DealOrder, Reported, Tallies, Ballots, Counters, NoneOverdue;
    var after := PassAll(db, ids);
    assert Decided(db.batchItems, after.batchItems, ids);
    DecidedStructure(db, after.batchItems, ids);
    DecidedTallies(db, after.batchItems, ids);
    DecidedReported(db, after.batchItems, ids);
    DecidedBallots(db, after.batchItems, ids);
    DecidedNoneOverdue(db, after.batchItems, ids);
    PassCounts(db, ids);
  }

  /** Passing changes no counter, and no kept row. */
  lemma PassCounts(db: Db, ids: set<BatchItemId>)
    requires Pending(db.batches, db.batchItems, ids) && Counters(db.items, db.batches, db.batchItems)
    ensures Counters(db.items, db.batches, PassAll(db, ids).batchItems)
  {
    var after := PassAll(db, ids).batchItems;
    forall i | i in db.items
      ensures OfferRows(after, db.batches, i) == OfferRows(db.batchItems, db.batches, i)
      ensures KeepRows(after, db.batches, i) == KeepRows(db.batchItems, db.batches, i)
    {
    }
  }

  lemma DecisionCountsOne(batches: map<BatchId, Batch>, batchItems: map<BatchItemId, BatchItem>, x: BatchItemId,
                          keep: bool, i: ItemId)
    requires Pending(batches, batchItems, {x}) && x in batchItems
    ensures var after := batchItems[x := batchItems[x].(outcome := Some(if keep then KeptHost else NotKept))];
            && OfferRows(after, batches, i) == OfferRows(batchItems, batches, i)
            && |KeepRows(after, batches, i)|
               == |KeepRows(batchItems, batches, i)| + if keep && i == batchItems[x].item then 1 else 0
  {
    assert x in {x};
    var after := batchItems[x := batchItems[x].(outcome := Some(if keep then KeptHost else NotKept))];
    var added: set<BatchItemId> := if keep && i == batchItems[x].item then {x} else {};
    SplitSize(KeepRows(after, batches, i), KeepRows(batchItems, batches, i), added);
  }

  /** A host keep adds exactly one kept row, of exactly one item. */
  lemma DecisionCounts(db: Db, x: BatchItemId, keep: bool)
    requires Pending(db.batches, db.batchItems, {x}) && x in db.batchItems && db.batchItems[x].item in db.items
    requires Counters(db.items, db.batches, db.batchItems)
    ensures var after := WriteDecision(db, x, keep);
            Counters(after.items, db.batches, after.batchItems)
  {
    hide OfferRows, KeepRows, Pending;
    forall i | i in db.items
      ensures var after := WriteDecision(db, x, keep).batchItems;
              && OfferRows(after, db.batches, i) == OfferRows(db.batchItems, db.batches, i)
              && |KeepRows(after, db.batches, i)|
                 == |KeepRows(db.batchItems, db.batches, i)| + if keep && i == db.batchItems[x].item then 1 else 0
    {
      DecisionCountsOne(db.batches, db.batchItems, x, keep, i);
    }
  }

  lemma DecisionSourced(db: Db, x: BatchItemId, keep: bool)
    requires x in db.batchItems && Refs(db) && Sourced(db.sessions, db.items, db.batches, db.batchItems)
    ensures var after := WriteDecision(db, x, keep);
            Refs(after) && Sourced(db.sessions, after.items, db.batches, after.batchItems)
  {
  }

  lemma OneDecided(rows: map<BatchItemId, BatchItem>, x: BatchItemId, outcome: Outcome)
    requires x in rows && (outcome == KeptHost || outcome == NotKept)
    ensures Decided(rows, rows[x := rows[x].(outcome := Some(outcome))], {x})
  {
  }

  lemma DecisionRow(db: Db, x: BatchItemId, keep: bool)
    requires x in db.batchItems
    ensures var after := WriteDecision(db, x, keep);
            && after.batchItems
               == db.batchItems[x := db.batchItems[x].(outcome := Some(if keep then KeptHost else NotKept))]
            && after.batches == db.batches && after.nextBatch == db.nextBatch && after.sessions == db.sessions
  {
  }

  lemma DecisionIsDecided(db: Db, x: BatchItemId, keep: bool)
    requires x in db.batchItems
    ensures var after := WriteDecision(db, x, keep);
            && Decided(db.batchItems, after.batchItems, {x})
            && after.batches == db.batches && after.nextBatch == db.nextBatch && after.sessions == db.sessions
  {
    hide WriteDecision, Decided;
    DecisionRow(db, x, keep);
    OneDecided(db.batchItems, x, if keep then KeptHost else NotKept);
  }

  lemma DecisionKeeps(db: Db, x: BatchItemId, keep: bool)
    requires Inv(db) && x in db.batchItems && Pending(db.batches, db.batchItems, {x})
    ensures Inv(WriteDecision(db, x, keep))
  {
    hide Refs, Targets, Rosters, Rounds, Newest, Sizes, Sourced;
    hide DealOrder, Reported, Tallies, Ballots, Counters, NoneOverdue;
    var after := WriteDecision(db, x, keep);
    DecisionIsDecided(db, x, keep);
    DecidedStructure(db, after.batchItems, {x});
    DecidedTallies(db, after.batchItems, {x});
    DecidedReported(db, after.batchItems, {x});
    DecidedBallots(db, after.batchItems, {x});
    DecidedNoneOverdue(db, after.batchItems, {x});
    DecisionCounts(db, x, keep);
    DecisionSourced(db, x, keep);
  }

  // ------------------------------------------------------------ opening a batch

  /** The session after `start_voting` or `next_batch` deals a batch. */
  function Dealt(db: Db, code: Code, track: Track, chosen: seq<ItemId>): Db
    requires code in db.sessions
  {
    SetStatus(OpenRound(db, code, track, chosen), code, Voting)
  }

  /** What a batch about to be dealt looks like. */
  ghost predicate Dealable(db: Db, code: Code, track: Track, chosen: seq<ItemId>) {
    && code in db.sessions && Live(db.sessions[code].status) && db.sessions[code].collection.Some?
    && track in db.sessions[code].targets
    && OpenBatches(db.batches, code) == {}
    && 0 < |chosen| <= BATCH_SIZE && NoRepeats(chosen)
    && forall i | i in chosen :: i in db.items && Some(db.items[i].collection) == db.sessions[code].collection
  }

  lemma DealtRefs(db: Db, code: Code, track: Track, chosen: seq<ItemId>)
    requires Refs(db) && Dealable(db, code, track, chosen)
    ensures Refs(Dealt(db, code, track, chosen))
  {
  }

  /** A live session that starts voting keeps its row otherwise. */
  lemma StartedRosters(sessions: map<Code, Session>, people: map<PersonId, Person>, code: Code)
    requires code in sessions && Live(sessions[code].status)
    requires Targets(sessions) && Rosters(sessions, people)
    ensures var after := sessions[code := sessions[code].(status := Voting)];
            Targets(after) && Rosters(after, people)
  {
  }

  lemma DealtRounds(db: Db, code: Code, track: Track, chosen: seq<ItemId>)
    requires Refs(db) && Dealable(db, code, track, chosen)
    requires Rounds(db.sessions, db.batches)
    ensures var after := Dealt(db, code, track, chosen);
            Rounds(after.sessions, after.batches)
  {
  }

  lemma DealtNewest(db: Db, code: Code, track: Track, chosen: seq<ItemId>)
    requires Refs(db) && Dealable(db, code, track, chosen) && Newest(db.batches)
    ensures Newest(Dealt(db, code, track, chosen).batches)
  {
    forall b | b in BatchesOf(db.batches, code)
      ensures !db.batches[b].open && db.batches[b].seq_ < NextSeq(SeqsOf(db.batches, code))
    {
      assert b !in OpenBatches(db.batches, code);
      assert db.batches[b].seq_ in SeqsOf(db.batches, code);
    }
  }

  /** The new batch's options are numbered consecutively. */
  lemma {:induction false} DealtOptions(b: BatchId, first: BatchItemId, chosen: seq<ItemId>)
    ensures |NewOptions(b, first, chosen).Keys| == |chosen|
  {
    if chosen != [] {
      var n := |chosen| - 1;
      DealtOptions(b, first, chosen[..n]);
      assert NewOptions(b, first, chosen).Keys == NewOptions(b, first, chosen[..n]).Keys + {first + n};
    }
  }

  /** Dealing leaves the options of every other batch alone. */
  lemma DealtItemsOf(batchItems: map<BatchItemId, BatchItem>, b: BatchId, first: BatchItemId, chosen: seq<ItemId>)
    requires forall x | x in batchItems :: x < first && batchItems[x].batch != b
    ensures ItemsOf(batchItems + NewOptions(b, first, chosen), b) == NewOptions(b, first, chosen).Keys
    ensures forall c | c != b :: ItemsOf(batchItems + NewOptions(b, first, chosen), c) == ItemsOf(batchItems, c)
  {
    var after := batchItems + NewOptions(b, first, chosen);
    forall c | c != b ensures ItemsOf(after, c) == ItemsOf(batchItems, c) {
      forall x ensures x in ItemsOf(after, c) <==> x in ItemsOf(batchItems, c) {
      }
    }
  }

  lemma DealtIsNew(db: Db)
    requires Refs(db)
    ensures forall x | x in db.batchItems :: x < db.nextBatchItem && db.batchItems[x].batch != db.nextBatch
  {
  }

  lemma DealtSizes(db: Db, code: Code, track: Track, chosen: seq<ItemId>)
    requires Refs(db) && 0 < |chosen| <= BATCH_SIZE && Sizes(db.batches, db.batchItems)
    ensures var after := OpenRound(db, code, track, chosen);
            Sizes(after.batches, after.batchItems)
  {
    DealtIsNew(db);
    DealtOptions(db.nextBatch, db.nextBatchItem, chosen);
    DealtItemsOf(db.batchItems, db.nextBatch, db.nextBatchItem, chosen);
  }

  lemma DealtSourced(db: Db, code: Code, track: Track, chosen: seq<ItemId>)
    requires Refs(db) && Dealable(db, code, track, chosen)
    requires Sourced(db.sessions, db.items, db.batches, db.batchItems)
    ensures var after := Dealt(db, code, track, chosen);
            Sourced(after.sessions, after.items, after.batches, after.batchItems)
  {
  }

  lemma DealtOrder(db: Db, code: Code, track: Track, chosen: seq<ItemId>)
    requires Refs(db) && Dealable(db, code, track, chosen) && DealOrder(db.batchItems)
    ensures DealOrder(Dealt(db, code, track, chosen).batchItems)
  {
  }

  lemma DealtReported(db: Db, code: Code, track: Track, chosen: seq<ItemId>)
    requires Refs(db) && Dealable(db, code, track, chosen) && Reported(db.batches, db.batchItems)
    ensures var after := Dealt(db, code, track, chosen);
            Reported(after.batches, after.batchItems)
  {
  }

  lemma DealtTallies(db: Db, code: Code, track: Track, chosen: seq<ItemId>)
    requires Refs(db) && Dealable(db, code, track, chosen)
    requires Rounds(db.sessions, db.batches) && Tallies(db.sessions, db.people, db.batches, db.batchItems)
    ensures var after := Dealt(db, code, track, chosen);
            Tallies(after.sessions, after.people, after.batches, after.batchItems)
  {
    var after := Dealt(db, code, track, chosen);
    forall c, x | ClosedIn(after.batches, after.batchItems, c, x)
      ensures ClosedIn(db.batches, db.batchItems, c, x) && after.batchItems[x] == db.batchItems[x]
      ensures c == code ==> db.sessions[code].status == Voting
    {
    }
  }

  lemma DealtBallots(db: Db, code: Code, track: Track, chosen: seq<ItemId>)
    requires Refs(db) && Dealable(db, code, track, chosen)
    requires Ballots(db.sessions, db.people, db.batches, db.batchItems, db.responses)
    ensures var after := Dealt(db, code, track, chosen);
            Ballots(after.sessions, after.people, after.batches, after.batchItems, after.responses)
  {
  }

  lemma DealtCountersOne(batches: map<BatchId, Batch>, batchItems: map<BatchItemId, BatchItem>,
                         b: BatchId, row: Batch, first: BatchItemId, chosen: seq<ItemId>, i: ItemId)
    requires row.open && forall x | x in batchItems :: x < first && batchItems[x].batch != b
    ensures var after := batchItems + NewOptions(b, first, chosen);
            && OfferRows(after, batches[b := row], i) == OfferRows(batchItems, batches, i)
            && KeepRows(after, batches[b := row], i) == KeepRows(batchItems, batches, i)
  {
    var after := batchItems + NewOptions(b, first, chosen);
    forall x ensures x in OfferRows(after, batches[b := row], i) <==> x in OfferRows(batchItems, batches, i) {
    }
    forall x ensures x in KeepRows(after, batches[b := row], i) <==> x in KeepRows(batchItems, batches, i) {
    }
  }

  lemma DealtCounters(db: Db, code: Code, track: Track, chosen: seq<ItemId>)
    requires Refs(db) && Counters(db.items, db.batches, db.batchItems)
    ensures var after := OpenRound(db, code, track, chosen);
            Counters(after.items, after.batches, after.batchItems)
  {
    DealtIsNew(db);
    var after := OpenRound(db, code, track, chosen);
    forall i | i in db.items
      ensures OfferRows(after.batchItems, after.batches, i) == OfferRows(db.batchItems, db.batches, i)
      ensures KeepRows(after.batchItems, after.batches, i) == KeepRows(db.batchItems, db.batches, i)
    {
      DealtCountersOne(db.batches, db.batchItems, db.nextBatch, after.batches[db.nextBatch], db.nextBatchItem, chosen,
                       i);
    }
  }

  lemma DealtUnanswered(db: Db, code: Code, track: Track, chosen: seq<ItemId>)
    requires Refs(db) && chosen != [] && Roster(db.people, code) != {}
    ensures var after := Dealt(db, code, track, chosen);
            !AllAnswered(after.responses, ItemsOf(after.batchItems, db.nextBatch), Roster(after.people, code))
  {
    var after := Dealt(db, code, track, chosen);
    var p :| p in Roster(db.people, code);
    assert db.nextBatchItem in ItemsOf(after.batchItems, db.nextBatch);
    assert Ballot(db.nextBatchItem, p) !in db.responses;
  }

  /** Nobody has voted in a batch just dealt, and its roster is not empty. */
  lemma DealtNoneOverdue(db: Db, code: Code, track: Track, chosen: seq<ItemId>)
    requires Refs(db) && Dealable(db, code, track, chosen) && Roster(db.people, code) != {}
    requires NoneOverdue(db.sessions, db.people, db.batches, db.batchItems, db.responses)
    ensures var after := Dealt(db, code, track, chosen);
            NoneOverdue(after.sessions, after.people, after.batches, after.batchItems, after.responses)
  {
    var after := Dealt(db, code, track, chosen);
    DealtUnanswered(db, code, track, chosen);
    DealtIsNew(db);
    DealtItemsOf(db.batchItems, db.nextBatch, db.nextBatchItem, chosen);
    forall b | b in db.batches && db.batches[b].open
      ensures db.batches[b].session != code && ItemsOf(after.batchItems, b) == ItemsOf(db.batchItems, b)
    {
      assert b !in OpenBatches(db.batches, code);
    }
  }

  lemma DealKeeps(db: Db, code: Code, track: Track, chosen: seq<ItemId>)
    requires Inv(db) && Dealable(db, code, track, chosen)
    ensures Inv(Dealt(db, code, track, chosen))
  {
    hide Refs, Targets, Rosters, Rounds, Newest, Sizes, Sourced;
    hide DealOrder, Reported, Tallies, Ballots, Counters, NoneOverdue;
    DealtRefs(db, code, track, chosen);
    StartedRosters(db.sessions, db.people, code);
    DealtRounds(db, code, track, chosen);
    DealtNewest(db, code, track, chosen);
    DealtSizes(db, code, track, chosen);
    DealtSourced(db, code, track, chosen);
    DealtOrder(db, code, track, chosen);
    DealtReported(db, code, track, chosen);
    DealtTallies(db, code, track, chosen);
    DealtBallots(db, code, track, chosen);
    DealtCounters(db, code, track, chosen);
    HostedRosterNonempty(db, code);
    DealtNoneOverdue(db, code, track, chosen);
  }

  // ------------------------------------------------------------ starting without a batch

  lemma StartedRounds(sessions: map<Code, Session>, items: map<ItemId, Item>, batches: map<BatchId, Batch>,
                      batchItems: map<BatchItemId, BatchItem>, code: Code)
    requires code in sessions && Live(sessions[code].status)
    requires Rounds(sessions, batches) && Sourced(sessions, items, batches, batchItems)
    ensures var after := sessions[code := sessions[code].(status := Voting)];
            Rounds(after, batches) && Sourced(after, items, batches, batchItems)
  {
  }

  lemma StartedTallies(db: Db, code: Code)
    requires code in db.sessions && Live(db.sessions[code].status)
    requires Rounds(db.sessions, db.batches)
    requires Tallies(db.sessions, db.people, db.batches, db.batchItems)
    requires NoneOverdue(db.sessions, db.people, db.batches, db.batchItems, db.responses)
    ensures var after := SetStatus(db, code, Voting).sessions;
            && Tallies(after, db.people, db.batches, db.batchItems)
            && NoneOverdue(after, db.people, db.batches, db.batchItems, db.responses)
  {
    assert db.sessions[code].status == Lobby ==> forall b | b in db.batches :: db.batches[b].session != code;
  }

  lemma StartedBallots(db: Db, code: Code)
    requires code in db.sessions && Live(db.sessions[code].status) && Refs(db)
    requires Ballots(db.sessions, db.people, db.batches, db.batchItems, db.responses)
    ensures Refs(SetStatus(db, code, Voting))
    ensures Ballots(SetStatus(db, code, Voting).sessions, db.people, db.batches, db.batchItems, db.responses)
  {
  }

  lemma StartKeeps(db: Db, code: Code)
    requires Inv(db) && code in db.sessions && Live(db.sessions[code].status)
    ensures Inv(SetStatus(db, code, Voting))
  {
    hide Refs, Targets, Rosters, Rounds, Newest, Sizes, Sourced;
    hide DealOrder, Reported, Tallies, Ballots, Counters, NoneOverdue;
    StartedRosters(db.sessions, db.people, code);
    StartedRounds(db.sessions, db.items, db.batches, db.batchItems, code);
    StartedTallies(db, code);
    StartedBallots(db, code);
  }

  // ------------------------------------------------------------ votes

  lemma CastBallots(db: Db, code: Code, b: BatchId, p: PersonId, x: BatchItemId, choice: Choice)
    requires Refs(db) && Ballots(db.sessions, db.people, db.batches, db.batchItems, db.responses)
    requires code in db.sessions && db.sessions[code].status == Voting
    requires b in OpenBatches(db.batches, code) && x in ItemsOf(db.batchItems, b) && p in Roster(db.people, code)
    ensures var cast := db.responses[Ballot(x, p) := choice];
            && Refs(db.(responses := cast))
            && Ballots(db.sessions, db.people, db.batches, db.batchItems, cast)
  {
  }

  /** A vote in one batch answers nothing in another. */
  lemma CastElsewhere(db: Db, b: BatchId, p: PersonId, x: BatchItemId, choice: Choice)
    requires x in ItemsOf(db.batchItems, b)
    requires NoneOverdue(db.sessions, db.people, db.batches, db.batchItems, db.responses)
    ensures var cast := db.responses[Ballot(x, p) := choice];
            forall c | c in db.batches && c != b && db.batches[c].open && db.batches[c].session in db.sessions
                       && db.sessions[db.batches[c].session].status == Voting ::
              !AllAnswered(cast, ItemsOf(db.batchItems, c), Roster(db.people, db.batches[c].session))
  {
    var cast := db.responses[Ballot(x, p) := choice];
    forall c | c in db.batches && c != b && db.batches[c].open && db.batches[c].session in db.sessions
               && db.sessions[db.batches[c].session].status == Voting
      ensures !AllAnswered(cast, ItemsOf(db.batchItems, c), Roster(db.people, db.batches[c].session))
    {
      var roster := Roster(db.people, db.batches[c].session);
      var y, q :| y in ItemsOf(db.batchItems, c) && q in roster && Ballot(y, q) !in db.responses;
      assert Ballot(y, q) !in cast;
    }
  }

  lemma VoteKeeps(db: Db, code: Code, b: BatchId, p: PersonId, x: BatchItemId, choice: Choice)
    requires Inv(db) && code in db.sessions && db.sessions[code].status == Voting
    requires b in OpenBatches(db.batches, code) && x in ItemsOf(db.batchItems, b) && p in Roster(db.people, code)
    ensures Inv(RecordVote(db, code, b, p, x, choice))
  {
    hide Refs, Targets, Rosters, Rounds, Newest, Sizes, Sourced;
    hide DealOrder, Reported, Tallies, Ballots, Counters, NoneOverdue;
    if Ballot(x, p) !in db.responses {
      var cast := db.(responses := db.responses[Ballot(x, p) := choice]);
      CastBallots(db, code, b, p, x, choice);
      CastElsewhere(db, b, p, x, choice);
      EverybodyFinishedMeans(cast, code, b);
      if EverybodyFinished(cast, code, b) {
        CloseKeeps(cast, code, b);
        CloseNoneOverdue(cast, code, b);
      } else {
        HostedRosterNonempty(db, code);
        CastNotOverdue(cast, code, b);
      }
    }
  }

  lemma CastNotOverdue(db: Db, code: Code, b: BatchId)
    requires b in OpenBatches(db.batches, code)
    requires !AllAnswered(db.responses, ItemsOf(db.batchItems, b), Roster(db.people, code))
    requires forall c | c in db.batches && c != b && db.batches[c].open && db.batches[c].session in db.sessions
                        && db.sessions[db.batches[c].session].status == Voting ::
               !AllAnswered(db.responses, ItemsOf(db.batchItems, c), Roster(db.people, db.batches[c].session))
    ensures NoneOverdue(db.sessions, db.people, db.batches, db.batchItems, db.responses)
  {
  }

  // ------------------------------------------------------------ the roster

  /** The lobby's roster may change: no batch has counted it yet. */
  lemma LobbyHasNoBatch(db: Db, code: Code)
    requires Rounds(db.sessions, db.batches) && code in db.sessions && db.sessions[code].status == Lobby
    ensures BatchesOf(db.batches, code) == {}
  {
  }

  lemma RosterChangeTallies(db: Db, people: map<PersonId, Person>, code: Code)
    requires Tallies(db.sessions, db.people, db.batches, db.batchItems)
    requires code in db.sessions && db.sessions[code].status == Lobby
    requires forall c | c != code :: Roster(people, c) == Roster(db.people, c)
    ensures Tallies(db.sessions, people, db.batches, db.batchItems)
  {
  }

  lemma RosterChangeNoneOverdue(db: Db, people: map<PersonId, Person>, code: Code)
    requires NoneOverdue(db.sessions, db.people, db.batches, db.batchItems, db.responses)
    requires BatchesOf(db.batches, code) == {}
    requires forall c | c != code :: Roster(people, c) == Roster(db.people, c)
    ensures NoneOverdue(db.sessions, people, db.batches, db.batchItems, db.responses)
  {
    forall b | b in db.batches ensures db.batches[b].session != code {
      assert b !in BatchesOf(db.batches, code);
    }
  }

  lemma SeatedRosters(sessions: map<Code, Session>, people: map<PersonId, Person>, p: PersonId, person: Person)
    requires Rosters(sessions, people) && p !in people
    requires person.session in sessions && Live(sessions[person.session].status)
    requires person.account.Some? ==> RowsOf(people, person.session, person.account.value) == {}
    ensures Rosters(sessions, people[p := person])
  {
    var after := people[p := person];
    forall c | c in sessions && Live(sessions[c].status)
      ensures RowsOf(after, c, sessions[c].host) != {}
    {
      var q :| q in RowsOf(people, c, sessions[c].host);
      assert q in RowsOf(after, c, sessions[c].host);
    }
    forall q | q in people && people[q].session == person.session && person.account.Some?
      ensures people[q].account != person.account
    {
      assert q !in RowsOf(people, person.session, person.account.value);
    }
  }

  lemma SeatedBallots(db: Db, person: Person)
    requires Refs(db) && Ballots(db.sessions, db.people, db.batches, db.batchItems, db.responses)
    requires person.session in db.sessions
    ensures var after := db.(people := db.people[db.nextPerson := person], nextPerson := db.nextPerson + 1);
            Refs(after) && Ballots(after.sessions, after.people, after.batches, after.batchItems, after.responses)
  {
  }

  lemma SeatKeeps(db: Db, person: Person)
    requires Inv(db) && person.session in db.sessions && db.sessions[person.session].status == Lobby
    requires person.account.Some? ==> RowsOf(db.people, person.session, person.account.value) == {}
    ensures Inv(db.(people := db.people[db.nextPerson := person], nextPerson := db.nextPerson + 1))
  {
    assert db.nextPerson !in db.people;
    hide Refs, Targets, Rosters, Rounds, Newest, Sizes, Sourced;
    hide DealOrder, Reported, Tallies, Ballots, Counters, NoneOverdue;
    var people := db.people[db.nextPerson := person];
    forall c | c != person.session ensures Roster(people, c) == Roster(db.people, c) {
    }
    SeatedRosters(db.sessions, db.people, db.nextPerson, person);
    SeatedBallots(db, person);
    LobbyHasNoBatch(db, person.session);
    RosterChangeTallies(db, people, person.session);
    RosterChangeNoneOverdue(db, people, person.session);
  }

  lemma UnseatedRosters(sessions: map<Code, Session>, people: map<PersonId, Person>, p: PersonId)
    requires Rosters(sessions, people) && p in people && people[p].session in sessions
    requires people[p].account != Some(sessions[people[p].session].host)
    ensures Rosters(sessions, people - {p})
  {
    forall c | c in sessions && Live(sessions[c].status)
      ensures RowsOf(people - {p}, c, sessions[c].host) != {}
    {
      var q :| q in RowsOf(people, c, sessions[c].host);
      assert q in RowsOf(people - {p}, c, sessions[c].host);
    }
  }

  lemma UnseatedBallots(db: Db, p: PersonId)
    requires Refs(db) && Ballots(db.sessions, db.people, db.batches, db.batchItems, db.responses)
    requires p in db.people && db.people[p].session in db.sessions && db.sessions[db.people[p].session].status == Lobby
    ensures var after := db.(people := db.people - {p});
            Refs(after) && Ballots(after.sessions, after.people, after.batches, after.batchItems, after.responses)
  {
  }

  lemma UnseatKeeps(db: Db, p: PersonId)
    requires Inv(db) && p in db.people && db.people[p].session in db.sessions
    requires db.sessions[db.people[p].session].status == Lobby
    requires db.people[p].account != Some(db.sessions[db.people[p].session].host)
    ensures Inv(db.(people := db.people - {p}))
  {
    hide Refs, Targets, Rosters, Rounds, Newest, Sizes, Sourced;
    hide DealOrder, Reported, Tallies, Ballots, Counters, NoneOverdue;
    var code := db.people[p].session;
    forall c | c != code ensures Roster(db.people - {p}, c) == Roster(db.people, c) {
    }
    UnseatedRosters(db.sessions, db.people, p);
    UnseatedBallots(db, p);
    LobbyHasNoBatch(db, code);
    RosterChangeTallies(db, db.people - {p}, code);
    RosterChangeNoneOverdue(db, db.people - {p}, code);
  }

  // ------------------------------------------------------------ new sessions

  lemma ChosenTargetsOk(collection: Option<nat>, breakfasts: int, lunches: int, dinners: int, picks: int, s: Session)
    requires ChosenTargets(collection, breakfasts, lunches, dinners, picks) == Ok(s.targets)
    requires s.collection == collection
    ensures TargetsOk(s)
  {
    if collection.None? {
      assert Picks in s.targets;
    }
  }

  /** The database with a new lobby and nobody in it yet, not even its host. */
  function Founded(db: Db, code: Code, s: Session, now: int): Db {
    db.(sessions := db.sessions[code := s], activity := db.activity[code := now])
  }

  lemma FoundedStructure(db: Db, code: Code, s: Session, now: int)
    requires code !in db.sessions && TargetsOk(s) && Targets(db.sessions) && Refs(db)
    requires Rounds(db.sessions, db.batches) && Sourced(db.sessions, db.items, db.batches, db.batchItems)
    ensures var after := Founded(db, code, s, now);
            Refs(after) && Targets(after.sessions) && Rounds(after.sessions, after.batches)
            && Sourced(after.sessions, after.items, after.batches, after.batchItems)
  {
  }

  lemma FoundedVotes(db: Db, code: Code, s: Session, people: map<PersonId, Person>)
    requires code !in db.sessions && s.status == Lobby
    requires Tallies(db.sessions, db.people, db.batches, db.batchItems)
    requires NoneOverdue(db.sessions, db.people, db.batches, db.batchItems, db.responses)
    requires forall c | c != code :: Roster(people, c) == Roster(db.people, c)
    ensures Tallies(db.sessions[code := s], people, db.batches, db.batchItems)
    ensures NoneOverdue(db.sessions[code := s], people, db.batches, db.batchItems, db.responses)
  {
  }

  lemma FoundedBallots(db: Db, code: Code, s: Session, host: Person, now: int)
    requires code !in db.sessions && Refs(db) && host.session == code
    requires Ballots(db.sessions, db.people, db.batches, db.batchItems, db.responses)
    ensures var founded := Founded(db, code, s, now);
            var after := founded.(people := db.people[db.nextPerson := host], nextPerson := db.nextPerson + 1);
            Refs(after) && Ballots(after.sessions, after.people, after.batches, after.batchItems, after.responses)
  {
  }

  lemma FoundedRosters(db: Db, code: Code, s: Session, host: Person)
    requires code !in db.sessions && s.status == Lobby && Refs(db) && Rosters(db.sessions, db.people)
    requires host.session == code && host.account == Some(s.host)
    ensures Rosters(db.sessions[code := s], db.people[db.nextPerson := host])
  {
    var people := db.people[db.nextPerson := host];
    assert db.nextPerson in RowsOf(people, code, s.host);
    forall c | c in db.sessions && Live(db.sessions[c].status)
      ensures RowsOf(people, c, db.sessions[c].host) != {}
    {
      var q :| q in RowsOf(db.people, c, db.sessions[c].host);
      assert q in RowsOf(people, c, db.sessions[c].host);
    }
  }

  lemma FoundKeeps(db: Db, code: Code, s: Session, host: Person, now: int)
    requires Inv(db) && code !in db.sessions && s.status == Lobby && TargetsOk(s)
    requires host.session == code && host.account == Some(s.host)
    ensures Inv(Founded(db, code, s, now).(people := db.people[db.nextPerson := host], nextPerson := db.nextPerson + 1))
  {
    assert db.nextPerson !in db.people;
    hide Refs, Targets, Rosters, Rounds, Newest, Sizes, Sourced;
    hide DealOrder, Reported, Tallies, Ballots, Counters, NoneOverdue;
    var people := db.people[db.nextPerson := host];
    forall c | c != code ensures Roster(people, c) == Roster(db.people, c) {
    }
    FoundedStructure(db, code, s, now);
    FoundedVotes(db, code, s, people);
    FoundedBallots(db, code, s, host, now);
    FoundedRosters(db, code, s, host);
  }

  // ------------------------------------------------------------ the library

  lemma LibraryCounters(db: Db, a: Action)
    requires a.AddItem? || a.EditItem? || a.ArchiveItem?
    requires Refs(db) && Counters(db.items, db.batches, db.batchItems)
    ensures Counters(EditLibrary(db, a).items, db.batches, db.batchItems)
  {
    assert OfferRows(db.batchItems, db.batches, db.nextItem) == {};
    assert KeepRows(db.batchItems, db.batches, db.nextItem) == {};
  }

  lemma LibraryRefs(db: Db, a: Action)
    requires a.AddItem? || a.EditItem? || a.ArchiveItem?
    requires Refs(db) && Sourced(db.sessions, db.items, db.batches, db.batchItems)
    ensures Refs(EditLibrary(db, a))
    ensures Sourced(db.sessions, EditLibrary(db, a).items, db.batches, db.batchItems)
  {
  }

  lemma LibraryKeeps(db: Db, a: Action)
    requires Inv(db) && (a.AddItem? || a.EditItem? || a.ArchiveItem?)
    ensures Inv(EditLibrary(db, a))
  {
    hide Refs, Targets, Rosters, Rounds, Newest, Sizes, Sourced;
    hide DealOrder, Reported, Tallies, Ballots, Counters, NoneOverdue;
    LibraryCounters(db, a);
    LibraryRefs(db, a);
  }
}
