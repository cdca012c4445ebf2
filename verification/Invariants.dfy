/** What every reachable database satisfies, whatever the requests. */
module Invariants {
  import opened Prelude
  import opened SessionLogic
  import opened Tables
  import opened Handlers

  // ------------------------------------------------------------ the invariant

  /** Foreign keys resolve, and ids are handed out in increasing order. */
  ghost predicate Refs(db: Db) {
    && (forall i | i in db.items :: i < db.nextItem)
    && (forall p | p in db.people :: p < db.nextPerson && db.people[p].session in db.sessions)
    && (forall b | b in db.batches :: b < db.nextBatch && db.batches[b].session in db.sessions)
    && (forall x | x in db.batchItems ::
          x < db.nextBatchItem && db.batchItems[x].batch in db.batches && db.batchItems[x].item in db.items)
    && (forall k | k in db.responses :: k.item in db.batchItems && k.voter in db.people)
  }

  predicate TargetsOk(s: Session) {
    && s.targets != map[]
    && (forall t | t in s.targets :: 0 < s.targets[t] <= 20)
    && (if s.collection.Some? then Picks !in s.targets else s.targets.Keys == {Picks})
  }

  ghost predicate Targets(sessions: map<Code, Session>) {
    forall c | c in sessions :: TargetsOk(sessions[c])
  }

  /** Participants sit only in live sessions, an account at most once per
      session, and a live session always seats its host. */
  ghost predicate Rosters(sessions: map<Code, Session>, people: map<PersonId, Person>) {
    && (forall p | p in people :: people[p].session in sessions && Live(sessions[people[p].session].status))
    && (forall p, q | p in people && q in people && p != q
                      && people[p].session == people[q].session && people[p].account.Some? ::
          people[p].account != people[q].account)
    && (forall c | c in sessions && Live(sessions[c].status) :: RowsOf(people, c, sessions[c].host) != {})
  }

  /** Batches only in started, collection-backed sessions, for one of their
      tracks; an open one only while voting, or abandoned by expiry. */
  ghost predicate Rounds(sessions: map<Code, Session>, batches: map<BatchId, Batch>) {
    forall b | b in batches ::
      && batches[b].session in sessions
      && var s := sessions[batches[b].session];
         && s.collection.Some? && batches[b].track in s.targets && s.status != Lobby
         && (batches[b].open ==> s.status == Voting || s.status == Expired)
  }

  /** Within a session, sequence numbers grow with ids, and only the newest
      batch can be open. */
  ghost predicate Newest(batches: map<BatchId, Batch>) {
    forall b, c | b in batches && c in batches && b < c && batches[b].session == batches[c].session ::
      batches[b].seq_ < batches[c].seq_ && !batches[b].open
  }

  /** A batch has between one and fifteen options. */
  ghost predicate Sizes(batches: map<BatchId, Batch>, batchItems: map<BatchItemId, BatchItem>) {
    forall b | b in batches :: 0 < |ItemsOf(batchItems, b)| <= BATCH_SIZE
  }

  /** Options come from the session's own collection. */
  ghost predicate Sourced(sessions: map<Code, Session>, items: map<ItemId, Item>,
                          batches: map<BatchId, Batch>, batchItems: map<BatchItemId, BatchItem>) {
    forall x | x in batchItems ::
      && batchItems[x].batch in batches && batches[batchItems[x].batch].session in sessions
      && batchItems[x].item in items
      && Some(items[batchItems[x].item].collection) == sessions[batches[batchItems[x].batch].session].collection
  }

  /** Option ids follow deal order, and a batch never repeats an item. */
  ghost predicate DealOrder(batchItems: map<BatchItemId, BatchItem>) {
    forall x, y | x in batchItems && y in batchItems && x < y ::
      && batchItems[x].batch <= batchItems[y].batch
      && (batchItems[x].batch == batchItems[y].batch ==>
            batchItems[x].item != batchItems[y].item && batchItems[x].sortOrder < batchItems[y].sortOrder)
  }

  /** An option of an open batch carries no counts and no outcome. */
  predicate Unreported(row: BatchItem) {
    row.yes == 0 && row.no == 0 && row.outcome == None
  }

  /** A closed option's outcome agrees with its counts. */
  predicate Judged(row: BatchItem) {
    && row.yes >= 0 && row.no >= 0 && row.yes + row.no > 0
    && (row.outcome == Some(KeptUnanimous) <==> row.no == 0)
    && (row.outcome == None || row.outcome == Some(KeptHost) ==> row.yes > row.no)
  }

  ghost predicate Reported(batches: map<BatchId, Batch>, batchItems: map<BatchItemId, BatchItem>) {
    forall x | x in batchItems ::
      && batchItems[x].batch in batches
      && if batches[batchItems[x].batch].open then Unreported(batchItems[x]) else Judged(batchItems[x])
  }

  predicate ClosedIn(batches: map<BatchId, Batch>, batchItems: map<BatchItemId, BatchItem>, code: Code, x: BatchItemId)
  {
    InSession(batchItems, batches, code, x) && !batches[batchItems[x].batch].open
  }

  function Votes(row: BatchItem): int {
    row.yes + row.no
  }

  /** The frozen roster: every closed option of a session counted the same
      number of votes, the size of the roster while voting goes on. */
  ghost predicate Tallies(sessions: map<Code, Session>, people: map<PersonId, Person>,
                          batches: map<BatchId, Batch>, batchItems: map<BatchItemId, BatchItem>) {
    && (forall c, x, y | ClosedIn(batches, batchItems, c, x) && ClosedIn(batches, batchItems, c, y) ::
          Votes(batchItems[x]) == Votes(batchItems[y]))
    && (forall c, x | ClosedIn(batches, batchItems, c, x) && c in sessions && sessions[c].status == Voting ::
          Votes(batchItems[x]) == |Roster(people, c)|)
  }

  /** Vote rows exist only for options of an open batch of a session still
      voting, from that session's own participants. */
  ghost predicate Ballots(sessions: map<Code, Session>, people: map<PersonId, Person>, batches: map<BatchId, Batch>,
                          batchItems: map<BatchItemId, BatchItem>, responses: map<Ballot, Choice>) {
    forall k | k in responses ::
      && k.item in batchItems && k.voter in people
      && batchItems[k.item].batch in batches
      && var batch := batches[batchItems[k.item].batch];
         && batch.open
         && people[k.voter].session == batch.session
         && batch.session in sessions && sessions[batch.session].status == Voting
  }

  /** Conservation: the counters on an item count its rows in closed batches. */
  ghost predicate Counters(items: map<ItemId, Item>, batches: map<BatchId, Batch>,
                           batchItems: map<BatchItemId, BatchItem>)
  {
    forall i | i in items ::
      && items[i].timesOffered == |OfferRows(batchItems, batches, i)|
      && items[i].timesKept == |KeepRows(batchItems, batches, i)|
  }

  ghost predicate Valid(db: Db) {
    && Refs(db)
    && Targets(db.sessions)
    && Rosters(db.sessions, db.people)
    && Rounds(db.sessions, db.batches)
    && Newest(db.batches)
    && Sizes(db.batches, db.batchItems)
    && Sourced(db.sessions, db.items, db.batches, db.batchItems)
    && DealOrder(db.batchItems)
    && Reported(db.batches, db.batchItems)
    && Tallies(db.sessions, db.people, db.batches, db.batchItems)
    && Ballots(db.sessions, db.people, db.batches, db.batchItems, db.responses)
    && Counters(db.items, db.batches, db.batchItems)
  }

  /** Everybody on the roster has answered every option of the batch. */
  ghost predicate AllAnswered(responses: map<Ballot, Choice>, options: set<BatchItemId>, roster: set<PersonId>) {
    forall x, p | x in options && p in roster :: Ballot(x, p) in responses
  }

  /** No automatic close has been missed. */
  ghost predicate NoneOverdue(sessions: map<Code, Session>, people: map<PersonId, Person>, batches: map<BatchId, Batch>,
                              batchItems: map<BatchItemId, BatchItem>, responses: map<Ballot, Choice>) {
    forall b | b in batches && batches[b].open && batches[b].session in sessions
               && sessions[batches[b].session].status == Voting ::
      !AllAnswered(responses, ItemsOf(batchItems, b), Roster(people, batches[b].session))
  }

  ghost predicate Inv(db: Db) {
    Valid(db) && NoneOverdue(db.sessions, db.people, db.batches, db.batchItems, db.responses)
  }

  // ------------------------------------------------------------ consequences

  lemma OneOpenBatch(db: Db, code: Code, b: BatchId)
    requires Newest(db.batches) && b in OpenBatches(db.batches, code)
    ensures OpenBatch(db.batches, code) == Some(b)
    ensures forall c | c in BatchesOf(db.batches, code) :: c <= b
  {
    var c := OpenBatch(db.batches, code).value;
    assert c in db.batches && b in db.batches;
  }

  lemma YesWithinRoster(db: Db, x: BatchItemId)
    requires Refs(db) && Ballots(db.sessions, db.people, db.batches, db.batchItems, db.responses) && x in db.batchItems
    ensures var code := db.batches[db.batchItems[x].batch].session;
            && YesVoters(db.responses, x) <= Roster(db.people, code)
            && 0 <= |YesVoters(db.responses, x)| <= |Roster(db.people, code)|
  {
    var code := db.batches[db.batchItems[x].batch].session;
    SubsetSize(YesVoters(db.responses, x), Roster(db.people, code));
  }

  lemma HostedRosterNonempty(db: Db, code: Code)
    requires Rosters(db.sessions, db.people) && code in db.sessions && Live(db.sessions[code].status)
    ensures |Roster(db.people, code)| > 0
  {
    var p :| p in RowsOf(db.people, code, db.sessions[code].host);
    assert p in Roster(db.people, code);
  }

  /** The handler's counting test is the plain statement that nothing is missing:
      a participant who answered as many options as there are answered them all. */
  lemma FinishedMeansAllAnswered(responses: map<Ballot, Choice>, options: set<BatchItemId>, roster: set<PersonId>)
    ensures Finished(responses, options, roster) <= |roster|
    ensures Finished(responses, options, roster) == |roster| <==> AllAnswered(responses, options, roster)
  {
    var done := set p | p in roster && |Answered(responses, options, p)| == |options|;
    SubsetSize(done, roster);
    forall p | p in roster
      ensures p in done <==> forall x | x in options :: Ballot(x, p) in responses
    {
      SubsetSize(Answered(responses, options, p), options);
      if forall x | x in options :: Ballot(x, p) in responses {
        assert Answered(responses, options, p) == options;
      }
    }
    if AllAnswered(responses, options, roster) {
      assert done == roster;
    }
  }

  lemma EverybodyFinishedMeans(db: Db, code: Code, b: BatchId)
    ensures EverybodyFinished(db, code, b)
            <==> Roster(db.people, code) != {}
                 && AllAnswered(db.responses, ItemsOf(db.batchItems, b), Roster(db.people, code))
  {
    var roster, options := Roster(db.people, code), ItemsOf(db.batchItems, b);
    FinishedMeansAllAnswered(db.responses, options, roster);
    assert |roster| == 0 <==> roster == {};
    assert |options| == 0 <==> options == {};
  }
}
