/** What each request does, told on the rows with every number written out: when
    a session expires, whom a host action obeys, and what closing, voting,
    deciding, moving on, finishing, joining, removing, creating and editing the
    library leave in the tables. */
module Effects {
  import opened Prelude
  import opened SessionLogic
  import opened Tables
  import opened Handlers
  import opened Invariants
  import opened Preservation
  import opened Runs
  import opened History
  import opened Endings
  import opened Lifecycle
  import opened Views

  // ------------------------------------------------------------ who is obeyed, and until when

  /** More than a day without activity. */
  predicate DayOld(db: Db, code: Code, now: int) {
    code in db.activity && db.activity[code] < now - 86400
  }

  /** The session is in its lobby or voting, and has not been silent for a day. */
  predicate Underway(db: Db, code: Code, now: int) {
    && code in db.sessions && (db.sessions[code].status == Lobby || db.sessions[code].status == Voting)
    && !DayOld(db, code, now)
  }

  /** And it is its host who asks. */
  predicate HostAsks(db: Db, code: Code, account: Option<Account>, now: int) {
    Underway(db, code, now) && account == Some(db.sessions[code].host)
  }

  lemma StaleMeans(db: Db, code: Code, now: int)
    requires code in db.sessions
    ensures Stale(db, code, now)
            <==> (db.sessions[code].status == Lobby || db.sessions[code].status == Voting) && DayOld(db, code, now)
    ensures Underway(db, code, now) ==> ExpireIfStale(db, code, now) == db
  {
  }

  /** A host action is admitted exactly from the session's host, in its lobby or
      its voting, within a day of the last activity; whoever else asks leaves no
      more than the expiry that was due, and a host who comes too late is sent to
      the session page. */
  lemma GateOpens(db: Db, code: Code, account: Option<Account>, now: int)
    ensures var gate := HostGate(db, code, account, now);
            && (gate.Admitted? <==> HostAsks(db, code, account, now))
            && gate.db == (if code in db.sessions then ExpireIfStale(db, code, now) else db)
            && (gate.Turned? && code in db.sessions && account == Some(db.sessions[code].host) ==>
                gate.reply == SeeSession)
  {
    if code in db.sessions {
      StaleMeans(db, code, now);
      ExpirySessions(db, code, now);
      hide ExpireIfStale, Stale, DayOld;
    }
  }

  /** A live session expires exactly when a request names it after more than a
      day of silence; then nobody is seated and no vote of it is left. */
  lemma ExpiresAfterADay(db: Db, a: Action, code: Code)
    requires Inv(db) && code in db.sessions
    requires db.sessions[code].status == Lobby || db.sessions[code].status == Voting
    ensures var after := Step(db, a).0;
            && code in after.sessions
            && (after.sessions[code].status == Expired
                <==> Addresses(a, code) && code in db.activity && db.activity[code] < a.now - 86400)
            && (after.sessions[code].status == Expired ==>
                  && (forall p | p in after.people :: after.people[p].session != code)
                  && (forall k | k in after.responses :: !InSession(after.batchItems, after.batches, code, k.item)))
  {
    hide Inv, Step, Stale;
    StatusChanges(db, a, code);
    StepKeeps(db, a);
    if Addresses(a, code) {
      StaleMeans(db, code, a.now);
    }
    if Step(db, a).0.sessions[code].status == Expired {
      EndedIsEmpty(Step(db, a).0, code);
    }
  }

  lemma EndedIsEmpty(db: Db, code: Code)
    requires Inv(db) && code in db.sessions && !Live(db.sessions[code].status)
    ensures forall p | p in db.people :: db.people[p].session != code
    ensures forall k | k in db.responses :: !InSession(db.batchItems, db.batches, code, k.item)
  {
    hide Refs, Targets, Rounds, Newest, Sizes, Sourced, DealOrder, Reported, Tallies, Counters, NoneOverdue;
  }

  /** A look at a page writes nothing to a session underway. */
  lemma LooksLeaveAlone(db: Db, code: Code, now: int)
    ensures var (after, reply) := Look(db, code, now);
            && (reply == if code in db.sessions then SeeSession else NotFound)
            && (code !in db.sessions || Underway(db, code, now) ==> after == db)
  {
    if code in db.sessions {
      StaleMeans(db, code, now);
    }
    hide ExpireIfStale;
  }

  // ------------------------------------------------------------ closing a batch

  /** The participants who said yes to an option. */
  function Ayes(db: Db, code: Code, x: BatchItemId): set<PersonId> {
    set p | p in db.people && db.people[p].session == code
            && Ballot(x, p) in db.responses && db.responses[Ballot(x, p)] == Yes
  }

  function Seated(db: Db, code: Code): set<PersonId> {
    set p | p in db.people && db.people[p].session == code
  }

  /** An option as the close of its batch reports it: everybody seated who did
      not say yes is a no; it is kept if all said yes, left to the host if more
      said yes than not, and rejected otherwise. */
  function ReportedRow(db: Db, code: Code, x: BatchItemId): BatchItem
    requires x in db.batchItems
  {
    var yes, all := |Ayes(db, code, x)|, |Seated(db, code)|;
    var outcome := if yes == all then Some(KeptUnanimous) else if yes > all - yes then None else Some(NotKept);
    db.batchItems[x].(yes := yes, no := all - yes, outcome := outcome)
  }

  /** The options once the batch is reported. */
  ghost predicate Reports(db: Db, after: map<BatchItemId, BatchItem>, code: Code, b: BatchId) {
    && after.Keys == db.batchItems.Keys
    && forall x | x in db.batchItems ::
         after[x] == if db.batchItems[x].batch == b then ReportedRow(db, code, x) else db.batchItems[x]
  }

  /** Each item of the batch is counted once as offered, and once as kept if all
      agreed; the other items are as they were. */
  ghost predicate Counts(db: Db, after: map<ItemId, Item>, code: Code, b: BatchId) {
    && after.Keys == db.items.Keys
    && (forall x | x in db.batchItems && db.batchItems[x].batch == b && db.batchItems[x].item in db.items ::
          after[db.batchItems[x].item]
            == CountedOnce(db.items[db.batchItems[x].item], Ayes(db, code, x) == Seated(db, code)))
    && (forall i | i in db.items && NotIn(db, b, i) :: after[i] == db.items[i])
  }

  function CountedOnce(item: Item, agreed: bool): Item {
    item.(timesOffered := item.timesOffered + 1, timesKept := item.timesKept + if agreed then 1 else 0)
  }

  ghost predicate NotIn(db: Db, b: BatchId, i: ItemId) {
    forall x | x in db.batchItems && db.batchItems[x].batch == b :: db.batchItems[x].item != i
  }

  /** The votes on the batch are deleted. */
  ghost predicate Forgets(db: Db, after: map<Ballot, Choice>, b: BatchId) {
    && (forall k :: k in after <==> k in db.responses && !(k.item in db.batchItems && db.batchItems[k.item].batch == b))
    && (forall k | k in after :: after[k] == db.responses[k])
  }

  /** `after` is `db` with batch `b` closed and nothing else changed. */
  ghost predicate ClosesTo(db: Db, after: Db, code: Code, b: BatchId) {
    && b in db.batches
    && after == db.(batches := after.batches, batchItems := after.batchItems, items := after.items,
                    responses := after.responses)
    && after.batches == db.batches[b := db.batches[b].(open := false)]
    && Reports(db, after.batchItems, code, b) && Counts(db, after.items, code, b) && Forgets(db, after.responses, b)
  }

  lemma AyesAreYesVoters(db: Db, code: Code, b: BatchId, x: BatchItemId)
    requires Refs(db) && Ballots(db.sessions, db.people, db.batches, db.batchItems, db.responses)
    requires b in BatchesOf(db.batches, code) && x in ItemsOf(db.batchItems, b)
    ensures Ayes(db, code, x) == YesVoters(db.responses, x) && Seated(db, code) == Roster(db.people, code)
    ensures |Ayes(db, code, x)| <= |Seated(db, code)|
    ensures |Ayes(db, code, x)| == |Seated(db, code)| <==> Ayes(db, code, x) == Seated(db, code)
  {
    forall p ensures p in Ayes(db, code, x) <==> p in YesVoters(db.responses, x) {
      if p in YesVoters(db.responses, x) {
        assert Ballot(x, p) in db.responses;
      }
      if p in Ayes(db, code, x) {
        assert Ballot(x, p).item == x;
      }
    }
    SubsetSize(Ayes(db, code, x), Seated(db, code));
  }

  lemma RowReported(db: Db, code: Code, b: BatchId, x: BatchItemId)
    requires Valid(db) && b in OpenBatches(db.batches, code) && x in ItemsOf(db.batchItems, b)
    requires code in db.sessions && Live(db.sessions[code].status)
    ensures Tallied(db.batchItems[x], |YesVoters(db.responses, x)|, |Roster(db.people, code)|)
            == ReportedRow(db, code, x)
    ensures ReportedRow(db, code, x).outcome == Some(KeptUnanimous) <==> Ayes(db, code, x) == Seated(db, code)
  {
    hide Targets, Rounds, Newest, Sizes, Sourced, DealOrder, Tallies, Counters, NoneOverdue;
    AyesAreYesVoters(db, code, b, x);
    HostedRosterNonempty(db, code);
    hide Rosters, Refs, Ballots, Ayes, Seated, YesVoters, Roster;
    assert Unreported(db.batchItems[x]);
  }

  /** The options of a batch, tallied. */
  function TalliedIn(db: Db, code: Code, b: BatchId): map<BatchItemId, BatchItem> {
    TallyTable(db.batchItems, db.responses, ItemsOf(db.batchItems, b), |Roster(db.people, code)|)
  }

  lemma TalliedShape(db: Db, code: Code, b: BatchId)
    ensures TalliedIn(db, code, b).Keys == db.batchItems.Keys
    ensures forall x | x in db.batchItems ::
              TalliedIn(db, code, b)[x]
              == if db.batchItems[x].batch != b then db.batchItems[x]
                 else Tallied(db.batchItems[x], |YesVoters(db.responses, x)|, |Roster(db.people, code)|)
    ensures forall x | x in db.batchItems :: TalliedIn(db, code, b)[x].item == db.batchItems[x].item
  {
    hide YesVoters, Roster;
  }

  lemma OptionReported(db: Db, code: Code, b: BatchId, x: BatchItemId)
    requires Valid(db) && b in OpenBatches(db.batches, code) && code in db.sessions && Live(db.sessions[code].status)
    requires x in db.batchItems
    ensures x in TalliedIn(db, code, b)
            && TalliedIn(db, code, b)[x]
               == if db.batchItems[x].batch == b then ReportedRow(db, code, x) else db.batchItems[x]
    ensures db.batchItems[x].batch == b ==>
            (TalliedIn(db, code, b)[x].outcome == Some(KeptUnanimous) <==> Ayes(db, code, x) == Seated(db, code))
  {
    TalliedShape(db, code, b);
    hide TalliedIn, Valid, OpenBatches, ReportedRow, Ayes, Seated, YesVoters, Roster, Tallied;
    if x in ItemsOf(db.batchItems, b) {
      RowReported(db, code, b, x);
    }
  }

  lemma OptionsReported(db: Db, code: Code, b: BatchId)
    requires Valid(db) && b in OpenBatches(db.batches, code) && code in db.sessions && Live(db.sessions[code].status)
    ensures Reports(db, TalliedIn(db, code, b), code, b)
  {
    TalliedShape(db, code, b);
    hide TalliedIn, Valid, OpenBatches, ReportedRow, Tallied, YesVoters, Roster;
    forall x | x in db.batchItems
      ensures TalliedIn(db, code, b)[x]
              == if db.batchItems[x].batch == b then ReportedRow(db, code, x) else db.batchItems[x]
    {
      OptionReported(db, code, b, x);
    }
  }

  /** In its batch an item is shown once. */
  lemma ItemCounted(items: map<ItemId, Item>, tallied: map<BatchItemId, BatchItem>, options: set<BatchItemId>,
                    x: BatchItemId)
    requires x in options && x in tallied && tallied[x].item in items
    requires forall y | y in options && y in tallied && y != x :: tallied[y].item != tallied[x].item
    ensures CountTable(items, tallied, options)[tallied[x].item]
            == CountedOnce(items[tallied[x].item], tallied[x].outcome == Some(KeptUnanimous))
  {
    assert Shown(tallied, options, tallied[x].item) == {x};
    assert ShownAndKept(tallied, options, tallied[x].item)
        == if tallied[x].outcome == Some(KeptUnanimous) then {x} else {};
  }

  lemma NotCounted(items: map<ItemId, Item>, tallied: map<BatchItemId, BatchItem>, options: set<BatchItemId>, i: ItemId)
    requires i in items && forall y | y in options && y in tallied :: tallied[y].item != i
    ensures CountTable(items, tallied, options)[i] == items[i]
  {
    assert Shown(tallied, options, i) == {} && ShownAndKept(tallied, options, i) == {};
  }

  lemma OptionCounted(db: Db, code: Code, b: BatchId, x: BatchItemId)
    requires Valid(db) && b in OpenBatches(db.batches, code) && code in db.sessions && Live(db.sessions[code].status)
    requires x in ItemsOf(db.batchItems, b) && db.batchItems[x].item in db.items
    ensures var items, i := CountTable(db.items, TalliedIn(db, code, b), ItemsOf(db.batchItems, b)),
            db.batchItems[x].item;
            i in items && items[i] == CountedOnce(db.items[i], Ayes(db, code, x) == Seated(db, code))
  {
    TalliedShape(db, code, b);
    OncePerBatch(db, b);
    OptionReported(db, code, b, x);
    hide *;
    ItemCounted(db.items, TalliedIn(db, code, b), ItemsOf(db.batchItems, b), x);
    ItemKeys(db.items, TalliedIn(db, code, b), ItemsOf(db.batchItems, b));
    InItemsOf(db, b);
  }

  lemma ItemKeys(items: map<ItemId, Item>, tallied: map<BatchItemId, BatchItem>, options: set<BatchItemId>)
    ensures CountTable(items, tallied, options).Keys == items.Keys
  {
  }

  lemma InItemsOf(db: Db, b: BatchId)
    ensures forall x :: x in ItemsOf(db.batchItems, b) <==> x in db.batchItems && db.batchItems[x].batch == b
  {
  }

  lemma ItemsCounted(db: Db, code: Code, b: BatchId)
    requires Valid(db) && b in OpenBatches(db.batches, code) && code in db.sessions && Live(db.sessions[code].status)
    ensures Counts(db, CountTable(db.items, TalliedIn(db, code, b), ItemsOf(db.batchItems, b)), code, b)
  {
    var tallied, options := TalliedIn(db, code, b), ItemsOf(db.batchItems, b);
    TalliedShape(db, code, b);
    ItemKeys(db.items, tallied, options);
    InItemsOf(db, b);
    hide Valid, OpenBatches, ItemsOf, ReportedRow, Ayes, Seated, TalliedIn, CountTable, CountedOnce, Tallied, YesVoters;
    forall x | x in options && db.batchItems[x].item in db.items
      ensures CountTable(db.items, tallied, options)[db.batchItems[x].item]
              == CountedOnce(db.items[db.batchItems[x].item], Ayes(db, code, x) == Seated(db, code))
    {
      OptionCounted(db, code, b, x);
    }
    forall i | i in db.items && NotIn(db, b, i) ensures CountTable(db.items, tallied, options)[i] == db.items[i] {
      NotCounted(db.items, tallied, options, i);
    }
  }

  lemma CloseShape(db: Db, code: Code, b: BatchId)
    requires b in OpenBatches(db.batches, code)
    ensures var after := CloseRound(db, code, b);
            && after == db.(batches := after.batches, batchItems := after.batchItems, items := after.items,
                            responses := after.responses)
            && after.batches == db.batches[b := db.batches[b].(open := false)]
            && after.batchItems == TalliedIn(db, code, b)
            && after.items == CountTable(db.items, TalliedIn(db, code, b), ItemsOf(db.batchItems, b))
            && Forgets(db, after.responses, b)
  {
    hide TallyTable, CountTable, Roster;
  }

  lemma CloseCloses(db: Db, code: Code, b: BatchId)
    requires Valid(db) && b in OpenBatches(db.batches, code) && code in db.sessions && Live(db.sessions[code].status)
    ensures ClosesTo(db, CloseRound(db, code, b), code, b)
  {
    CloseShape(db, code, b);
    OptionsReported(db, code, b);
    ItemsCounted(db, code, b);
    hide Valid, CloseRound, TalliedIn, CountTable, Reports, Counts, Forgets;
  }

  lemma OncePerBatch(db: Db, b: BatchId)
    requires Valid(db)
    ensures forall x, y | x in ItemsOf(db.batchItems, b) && y in ItemsOf(db.batchItems, b) && x != y ::
              db.batchItems[x].item != db.batchItems[y].item
  {
    hide Refs, Targets, Rosters, Rounds, Newest, Sizes, Sourced, Reported, Tallies, Ballots, Counters, NoneOverdue;
    forall x, y | x in ItemsOf(db.batchItems, b) && y in ItemsOf(db.batchItems, b) && x != y
      ensures db.batchItems[x].item != db.batchItems[y].item
    {
      if x < y {
      } else {
        assert y < x;
      }
    }
  }

  /** The host's close closes the open batch, wherever it stands in voting: the
      session has no open batch and no vote left, and was last active now. */
  lemma HostClosesBatch(db: Db, code: Code, account: Option<Account>, now: int, b: BatchId)
    requires Inv(db) && HostAsks(db, code, account, now)
    requires b in db.batches && db.batches[b].session == code && db.batches[b].open
    ensures var (after, reply) := CloseByHand(db, code, account, now);
            && reply == SeeSession
            && ClosesTo(db, after.(activity := db.activity), code, b)
            && after.activity == db.activity[code := now]
            && (forall c | c in after.batches && after.batches[c].session == code :: !after.batches[c].open)
            && (forall k | k in after.responses :: !InSession(after.batchItems, after.batches, code, k.item))
  {
    hide Refs, Targets, Rosters, Rounds, Sizes, Sourced, DealOrder, Reported, Tallies, Counters, NoneOverdue;
    GateOpens(db, code, account, now);
    OneOpenBatch(db, code, b);
    CloseCloses(db, code, b);
    CloseKeepsTime(db, code, b);
    hide CloseRound, HostGate, ReportedRow, Counts;
  }

  /** With no open batch there is nothing to close. */
  lemma HostClosesNothing(db: Db, code: Code, account: Option<Account>, now: int)
    requires HostAsks(db, code, account, now)
    requires forall b | b in db.batches && db.batches[b].session == code :: !db.batches[b].open
    ensures CloseByHand(db, code, account, now) == (db, SeeSession)
  {
    GateOpens(db, code, account, now);
    hide HostGate;
  }

  // ------------------------------------------------------------ a vote

  /** The sender is known as participant `p`: by the cookie's row if that is a row
      of the session, else by the account's. */
  predicate KnownAs(db: Db, code: Code, cookie: Option<PersonId>, account: Option<Account>, p: PersonId) {
    && p in db.people && db.people[p].session == code
    && (cookie == Some(p)
        || (&& account.Some? && db.people[p].account == account
            && (cookie.Some? && cookie.value in db.people ==> db.people[cookie.value].session != code)))
  }

  lemma KnownIsViewer(db: Db, code: Code, cookie: Option<PersonId>, account: Option<Account>, p: PersonId)
    requires Rosters(db.sessions, db.people) && KnownAs(db, code, cookie, account, p)
    ensures ViewerParticipant(db.people, code, cookie, account) == Some(p)
  {
    if cookie != Some(p) {
      assert p in RowsOf(db.people, code, account.value);
    }
  }

  lemma UnknownIsNobody(db: Db, code: Code, cookie: Option<PersonId>, account: Option<Account>)
    requires forall p :: !KnownAs(db, code, cookie, account, p)
    ensures ViewerParticipant(db.people, code, cookie, account) == None
  {
    if cookie.Some? {
      assert !KnownAs(db, code, cookie, account, cookie.value);
    }
    if account.Some? {
      assert forall p | p in RowsOf(db.people, code, account.value) :: !KnownAs(db, code, cookie, account, p);
    }
  }

  /** Everybody seated has answered every option of the batch. */
  ghost predicate AllIn(db: Db, code: Code, b: BatchId) {
    forall p, x | p in Seated(db, code) && x in db.batchItems && db.batchItems[x].batch == b ::
      Ballot(x, p) in db.responses
  }

  /** The database with the vote in it, unless the pair has one already. */
  function WithVote(db: Db, k: Ballot, choice: Choice): Db {
    if k in db.responses then db else db.(responses := db.responses[k := choice])
  }

  lemma CastIsValid(db: Db, code: Code, b: BatchId, p: PersonId, x: BatchItemId, choice: Choice)
    requires Valid(db) && code in db.sessions && db.sessions[code].status == Voting
    requires b in OpenBatches(db.batches, code) && x in ItemsOf(db.batchItems, b) && p in Roster(db.people, code)
    ensures Valid(db.(responses := db.responses[Ballot(x, p) := choice]))
  {
    hide Refs, Targets, Rosters, Rounds, Newest, Sizes, Sourced;
    hide DealOrder, Reported, Tallies, Ballots, Counters;
    CastBallots(db, code, b, p, x, choice);
  }

  lemma RecordsVote(db: Db, code: Code, b: BatchId, p: PersonId, x: BatchItemId, choice: Choice)
    requires Inv(db) && code in db.sessions && db.sessions[code].status == Voting
    requires b in OpenBatches(db.batches, code) && x in ItemsOf(db.batchItems, b) && p in Roster(db.people, code)
    ensures var cast, after := WithVote(db, Ballot(x, p), choice), RecordVote(db, code, b, p, x, choice);
            if AllIn(cast, code, b) then ClosesTo(cast, after, code, b) else after == cast
  {
    hide Refs, Targets, Rounds, Newest, Sizes, Sourced, DealOrder, Reported, Tallies, Ballots, Counters;
    var cast := WithVote(db, Ballot(x, p), choice);
    if Ballot(x, p) in db.responses {
      assert AllIn(db, code, b) ==> AllAnswered(db.responses, ItemsOf(db.batchItems, b), Roster(db.people, code));
    } else {
      CastIsValid(db, code, b, p, x, choice);
      EverybodyFinishedMeans(cast, code, b);
      HostedRosterNonempty(cast, code);
      assert AllIn(cast, code, b)
          <==> AllAnswered(cast.responses, ItemsOf(cast.batchItems, b), Roster(cast.people, code));
      CloseCloses(cast, code, b);
      hide Valid, CloseRound, EverybodyFinished, ClosesTo, AllIn, AllAnswered;
    }
  }

  /** A vote by somebody known, on an option of the open batch, is recorded unless
      the pair has voted before; it closes the batch exactly if now everybody
      seated has answered everything; and the session was last active now. */
  lemma VoteIsCounted(db: Db, code: Code, cookie: Option<PersonId>, account: Option<Account>, p: PersonId,
                      b: BatchId, x: BatchItemId, choice: Choice, now: int)
    requires Inv(db) && Underway(db, code, now) && KnownAs(db, code, cookie, account, p)
    requires b in db.batches && db.batches[b].session == code && db.batches[b].open
    requires x in db.batchItems && db.batchItems[x].batch == b
    ensures var (after, reply) := Vote(db, code, cookie, account, x, if choice == Yes then "yes" else "no", now);
            var cast := WithVote(db, Ballot(x, p), choice);
            && reply == SeeSession
            && after.activity == db.activity[code := now]
            && if AllIn(cast, code, b)
               then ClosesTo(cast, after.(activity := db.activity), code, b)
               else after.(activity := db.activity) == cast
  {
    hide *;
    VoteRecords(db, code, cookie, account, p, b, x, choice, now);
    RecordsVote(db, code, b, p, x, choice);
    RecordKeepsTime(db, code, b, p, x, choice);
    TimeAside(RecordVote(db, code, b, p, x, choice), code, now);
  }

  lemma TimeAside(db: Db, code: Code, now: int)
    ensures Touch(db, code, now).activity == db.activity[code := now]
    ensures Touch(db, code, now).(activity := db.activity) == db
  {
  }

  lemma VoteRecords(db: Db, code: Code, cookie: Option<PersonId>, account: Option<Account>, p: PersonId,
                    b: BatchId, x: BatchItemId, choice: Choice, now: int)
    requires Inv(db) && Underway(db, code, now) && KnownAs(db, code, cookie, account, p)
    requires b in db.batches && db.batches[b].session == code && db.batches[b].open
    requires x in db.batchItems && db.batchItems[x].batch == b
    ensures code in db.sessions && db.sessions[code].status == Voting
    ensures b in OpenBatches(db.batches, code) && x in ItemsOf(db.batchItems, b) && p in Roster(db.people, code)
    ensures Vote(db, code, cookie, account, x, if choice == Yes then "yes" else "no", now)
            == (Touch(RecordVote(db, code, b, p, x, choice), code, now), SeeSession)
  {
    hide Refs, Targets, Sizes, Sourced, DealOrder, Reported, Tallies, Ballots, Counters, NoneOverdue;
    StaleMeans(db, code, now);
    KnownIsViewer(db, code, cookie, account, p);
    OneOpenBatch(db, code, b);
    OpenMeansVoting(db, code);
    hide RecordVote, ViewerParticipant, ExpireIfStale, Rosters, Rounds, Newest;
  }

  lemma RecordKeepsTime(db: Db, code: Code, b: BatchId, p: PersonId, x: BatchItemId, choice: Choice)
    requires b in db.batches
    ensures RecordVote(db, code, b, p, x, choice).activity == db.activity
  {
    hide EverybodyFinished, CloseRound;
    CloseKeepsTime(db.(responses := db.responses[Ballot(x, p) := choice]), code, b);
  }

  /** Any other vote writes no more than the expiry that was due. It is not found
      if a known sender of a session with an open batch names no option of the
      session, a bad request if the choice on the open batch is neither yes nor
      no, and sent to the session page otherwise. */
  lemma OtherVotes(db: Db, code: Code, cookie: Option<PersonId>, account: Option<Account>, x: BatchItemId,
                   choice: string, now: int)
    requires Newest(db.batches) && code in db.sessions
    ensures var (after, reply) := Vote(db, code, cookie, account, x, choice, now);
            var open := exists b :: b in db.batches && db.batches[b].session == code && db.batches[b].open;
            var known := exists p :: KnownAs(db, code, cookie, account, p);
            var ours := x in db.batchItems && db.batchItems[x].batch in db.batches
                        && db.batches[db.batchItems[x].batch].session == code;
            var asked := ours && db.batches[db.batchItems[x].batch].open;
            !(Underway(db, code, now) && open && known && asked && (choice == "yes" || choice == "no")) ==>
            && after == ExpireIfStale(db, code, now)
            && reply == (if Underway(db, code, now) && open && known && !ours then NotFound
                         else if Underway(db, code, now) && open && known && asked then BadRequest
                         else SeeSession)
  {
    StaleMeans(db, code, now);
    ExpirySessions(db, code, now);
    if p :| KnownAs(db, code, cookie, account, p) {
      SomebodyKnown(db, code, cookie, account, p);
    } else {
      UnknownIsNobody(db, code, cookie, account);
    }
    if b :| b in OpenBatches(db.batches, code) {
      OneOpenBatch(db, code, b);
      assert db.batches[b].open;
    }
    NoneOpen(db, code);
    ExpirySpares(db, code, now);
    hide ExpireIfStale, Stale, RecordVote, ViewerParticipant, KnownAs, DayOld;
  }

  lemma NoneOpen(db: Db, code: Code)
    ensures OpenBatches(db.batches, code) != {}
            <==> exists b :: b in db.batches && db.batches[b].session == code && db.batches[b].open
  {
    if b :| b in db.batches && db.batches[b].session == code && db.batches[b].open {
      assert b in OpenBatches(db.batches, code);
    }
    if b :| b in OpenBatches(db.batches, code) {
      assert b in db.batches && db.batches[b].session == code && db.batches[b].open;
    }
  }

  lemma SomebodyKnown(db: Db, code: Code, cookie: Option<PersonId>, account: Option<Account>, p: PersonId)
    requires KnownAs(db, code, cookie, account, p)
    ensures ViewerParticipant(db.people, code, cookie, account).Some?
  {
    if cookie != Some(p) {
      assert p in RowsOf(db.people, code, account.value);
    }
  }

  // ------------------------------------------------------------ deciding, finishing

  /** A decision falls exactly on an undecided option of a closed batch of the
      session; a keep counts its item once more as kept. */
  lemma DecisionStands(db: Db, code: Code, account: Option<Account>, b: BatchId, x: BatchItemId, keep: bool, now: int)
    requires Refs(db) && HostAsks(db, code, account, now)
    ensures var (after, reply) := Decide(db, code, account, b, x, keep, now);
            if !(b in db.batches && db.batches[b].session == code && x in db.batchItems && db.batchItems[x].batch == b)
            then after == db && reply == NotFound
            else if db.batches[b].open || db.batchItems[x].outcome.Some? then after == db && reply == SeeSession
            else var row, i := db.batchItems[x], db.batchItems[x].item;
                 && reply == SeeSession && i in db.items
                 && after == db.(batchItems :=
                                 db.batchItems[x := row.(outcome := Some(if keep then KeptHost else NotKept))],
                                 items := if keep
                                          then db.items[i := db.items[i].(timesKept := db.items[i].timesKept + 1)]
                                          else db.items,
                                 activity := db.activity[code := now])
  {
    GateOpens(db, code, account, now);
    hide HostGate;
  }

  /** Option `x` of session `code` waits for its host. */
  predicate Waits(db: Db, code: Code, x: BatchItemId) {
    InSession(db.batchItems, db.batches, code, x) && !db.batches[db.batchItems[x].batch].open
    && db.batchItems[x].outcome.None?
  }

  /** Finishing completes the session and empties its roster; whatever waited for
      the host is passed. */
  lemma FinishWithoutBatch(db: Db, code: Code, account: Option<Account>, now: int)
    requires HostAsks(db, code, account, now)
    requires forall b | b in db.batches && db.batches[b].session == code :: !db.batches[b].open
    ensures var (after, reply) := FinishSession(db, code, account, now);
            && reply == SeeSession
            && after == db.(sessions := db.sessions[code := db.sessions[code].(status := Complete)],
                            people := after.people, batchItems := after.batchItems)
            && Leaves(db, after.people, code)
            && after.batchItems.Keys == db.batchItems.Keys
            && forall x | x in db.batchItems ::
                 after.batchItems[x]
                 == if Waits(db, code, x) then db.batchItems[x].(outcome := Some(NotKept)) else db.batchItems[x]
  {
    GateOpens(db, code, account, now);
    hide HostGate;
  }

  /** The session's own rows are gone, the others stay. */
  ghost predicate Leaves(db: Db, people: map<PersonId, Person>, code: Code) {
    && (forall p :: p in people <==> p in db.people && db.people[p].session != code)
    && (forall p | p in people :: people[p] == db.people[p])
  }

  /** With a batch open it is closed first, with every missing answer a no; its
      own majority options stay without an outcome. */
  lemma FinishWithBatch(db: Db, code: Code, account: Option<Account>, now: int, b: BatchId)
    requires Inv(db) && HostAsks(db, code, account, now)
    requires b in db.batches && db.batches[b].session == code && db.batches[b].open
    ensures var (after, reply) := FinishSession(db, code, account, now);
            && reply == SeeSession
            && after == db.(sessions := db.sessions[code := db.sessions[code].(status := Complete)],
                            activity := db.activity[code := now],
                            batches := db.batches[b := db.batches[b].(open := false)],
                            people := after.people, batchItems := after.batchItems,
                            items := after.items, responses := after.responses)
            && Leaves(db, after.people, code) && Counts(db, after.items, code, b) && Forgets(db, after.responses, b)
            && after.batchItems.Keys == db.batchItems.Keys
            && forall x | x in db.batchItems ::
                 after.batchItems[x]
                 == if db.batchItems[x].batch == b then ReportedRow(db, code, x)
                    else if Waits(db, code, x) then db.batchItems[x].(outcome := Some(NotKept))
                    else db.batchItems[x]
  {
    hide Refs, Targets, Rosters, Rounds, Sizes, Sourced, DealOrder, Reported, Tallies, Ballots, Counters, NoneOverdue;
    GateOpens(db, code, account, now);
    OneOpenBatch(db, code, b);
    CloseCloses(db, code, b);
    hide CloseRound, HostGate, ReportedRow, Counts, Forgets, Newest;
  }

  // ------------------------------------------------------------ joining and removing

  /** A participant's seat taken by an account. */
  predicate SeatOf(db: Db, code: Code, account: Option<Account>, p: PersonId) {
    account.Some? && p in db.people && db.people[p].session == code && db.people[p].account == account
  }

  /** An account at the table already is shown to its own row again, in the lobby
      and while voting alike, and nothing is written. */
  lemma RejoinsAsOneself(db: Db, code: Code, account: Option<Account>, name: string, now: int, p: PersonId)
    requires Rosters(db.sessions, db.people) && Underway(db, code, now) && SeatOf(db, code, account, p)
    ensures JoinSession(db, code, account, name, now) == (db, SeeSession, Some(p))
  {
    StaleMeans(db, code, now);
    assert p in RowsOf(db.people, code, account.value);
    hide ExpireIfStale;
  }

  /** Everybody else: an unknown session is not found, an ended one shows its end,
      a voting one its waiting page, and the lobby asks for a name and then seats
      the newcomer under a fresh id, to which the cookie is pointed. */
  lemma NewcomerJoins(db: Db, code: Code, account: Option<Account>, name: string, now: int)
    requires Refs(db) && forall p :: !SeatOf(db, code, account, p)
    ensures JoinSession(db, code, account, name, now)
            == if code !in db.sessions then (db, NotFound, None)
               else if !Underway(db, code, now) then (ExpireIfStale(db, code, now), EndedPage, None)
               else if db.sessions[code].status == Voting then (db, JoinPage, None)
               else if name == "" then (db, BadRequest, None)
               else (db.(people := db.people[db.nextPerson := Person(code, account, name)],
                         nextPerson := db.nextPerson + 1, activity := db.activity[code := now]),
                     SeeSession, Some(db.nextPerson))
    ensures db.nextPerson !in db.people
  {
    if code in db.sessions {
      StaleMeans(db, code, now);
      ExpirySessions(db, code, now);
      if account.Some? && Underway(db, code, now) {
        assert forall p | p in RowsOf(db.people, code, account.value) :: SeatOf(db, code, account, p);
      }
      hide ExpireIfStale, Stale, DayOld;
    }
  }

  /** The host removes exactly the named participant, in the lobby only, and
      never the host's own row. */
  lemma HostRemoves(db: Db, code: Code, account: Option<Account>, p: PersonId, now: int)
    requires HostAsks(db, code, account, now)
    ensures RemoveParticipant(db, code, account, p, now)
            == if db.sessions[code].status == Voting || p !in db.people || db.people[p].session != code
               then (db, SeeSession)
               else if db.people[p].account == account then (db, BadRequest)
               else (db.(people := db.people - {p}, activity := db.activity[code := now]), SeeSession)
  {
    GateOpens(db, code, account, now);
    hide HostGate;
  }

  // ------------------------------------------------------------ creating

  /** A session is created exactly when no number asked for is over 20, some track
      is asked for, and one of the first hundred codes drawn is free. It is a lobby
      with the collection, the shuffle and, per track, the number asked for; its
      host is its one participant; it has no batch; and it was last active now.
      Otherwise nothing is written. */
  lemma CreateStores(db: Db, host: Account, name: string, coll: Option<nat>, br: int, lu: int, di: int, pi: int,
                     draws: seq<Code>, rolls: seq<seq<nat>>, now: int)
    requires Refs(db)
    ensures var (after, reply, code) := CreateSession(db, host, name, coll, br, lu, di, pi, draws, rolls, now);
            var asked := br <= 20 && lu <= 20 && di <= 20 && pi <= 20 && exists t :: Asked(coll, br, lu, di, pi, t) > 0;
            var free := exists k :: 0 <= k < |draws| && k < 100 && draws[k] !in db.sessions;
            && (code.Some? <==> asked && free)
            && reply == (if !asked then BadRequest else if !free then ServerError else SeeSession)
            && (code.None? ==> after == db)
            && (code.Some? ==>
                  && code.value !in db.sessions && code.value in after.sessions && db.nextPerson !in db.people
                  && (forall p | p in db.people :: db.people[p].session != code.value)
                  && (forall b | b in after.batches :: after.batches[b].session != code.value)
                  && after == db.(sessions := db.sessions[code.value := after.sessions[code.value]],
                                  activity := db.activity[code.value := now],
                                  people := db.people[db.nextPerson := Person(code.value, Some(host), name)],
                                  nextPerson := db.nextPerson + 1)
                  && var s := after.sessions[code.value];
                     && s.status == Lobby && s.host == host && s.collection == coll && s.rolls == rolls
                     && forall t :: (t in s.targets <==> Asked(coll, br, lu, di, pi, t) > 0)
                                    && (t in s.targets ==> s.targets[t] == Asked(coll, br, lu, di, pi, t)))
  {
    TargetsAreAsked(coll, br, lu, di, pi);
    MakeCodeMeans(db.sessions.Keys, draws);
    hide ChosenTargets, MakeCode, Asked;
  }

  // ------------------------------------------------------------ times on record

  /** Every session's last activity is on record. */
  ghost predicate Timed(db: Db) {
    db.sessions.Keys <= db.activity.Keys
  }

  /** No session comes but by a create, and no time of activity goes. */
  ghost predicate Clocked(db: Db, after: Db) {
    after.sessions.Keys == db.sessions.Keys && db.activity.Keys <= after.activity.Keys
  }

  lemma GateClocks(db: Db, code: Code, account: Option<Account>, now: int)
    ensures Clocked(db, HostGate(db, code, account, now).db)
  {
    hide OpenOptions;
  }

  lemma StartClocks(db: Db, a: Action)
    requires a.Start?
    ensures Clocked(db, Step(db, a).0)
  {
    hide HostGate, StartAdmitted, Dealt;
    GateClocks(db, a.code, a.account, a.now);
    if HostGate(db, a.code, a.account, a.now).Admitted? {
      AdmittedIsLive(db, a.code, a.account, a.now);
      StartShapes(db, a.code, a.now);
      var after := StartAdmitted(db, a.code, a.now).0;
      if track, chosen :| after == Touch(Dealt(db, a.code, track, chosen), a.code, a.now) {
        DealtSpares(db, a.code, track, chosen);
        DealtKeepsTime(db, a.code, track, chosen);
      }
    }
  }

  lemma DealtKeepsTime(db: Db, code: Code, track: Track, chosen: seq<ItemId>)
    requires code in db.sessions
    ensures Dealt(db, code, track, chosen).activity == db.activity
  {
    hide NewOptions, NextSeq, SeqsOf;
  }

  lemma RowClocks(db: Db, a: Action)
    requires a.KeepOrPass? || a.Remove?
    ensures Clocked(db, Step(db, a).0)
  {
    hide HostGate;
    GateClocks(db, a.code, a.account, a.now);
  }

  lemma ClosingClocks(db: Db, a: Action)
    requires a.Close? || a.Finish?
    ensures Clocked(db, Step(db, a).0)
  {
    hide HostGate, CloseRound, OpenBatches, Undecided;
    GateClocks(db, a.code, a.account, a.now);
    var open := OpenBatch(db.batches, a.code);
    if open.Some? {
      assert open.value in db.batches by { OpenIsThere(db, a.code, open.value); }
      CloseSpares(db, a.code, open.value);
      CloseKeepsTime(db, a.code, open.value);
    }
  }

  lemma NextClocks(db: Db, a: Action)
    requires a.Next?
    ensures Clocked(db, Step(db, a).0)
  {
    hide HostGate, OpenBatch, Undecided, NextBatchAssembly, NewOptions, NextSeq, SeqsOf;
    GateClocks(db, a.code, a.account, a.now);
  }

  lemma OpenIsThere(db: Db, code: Code, b: BatchId)
    requires b in OpenBatches(db.batches, code)
    ensures b in db.batches
  {
  }

  lemma GuestClocks(db: Db, a: Action)
    requires a.Join? || a.View?
    ensures Clocked(db, Step(db, a).0)
  {
    hide ExpireIfStale, ExistingRow;
    if a.code in db.sessions {
      ExpiryClocks(db, a.code, a.now);
    }
  }

  lemma ExpiryClocks(db: Db, code: Code, now: int)
    requires code in db.sessions
    ensures Clocked(db, ExpireIfStale(db, code, now))
  {
    hide OpenOptions;
  }

  lemma VoteClocks(db: Db, a: Action)
    requires a.CastVote?
    ensures Clocked(db, Step(db, a).0)
  {
    hide RecordVote, ViewerParticipant, ExpireIfStale, OpenBatches;
    if a.code in db.sessions {
      ExpiryClocks(db, a.code, a.now);
      var current := ExpireIfStale(db, a.code, a.now);
      var viewer := ViewerParticipant(current.people, a.code, a.cookie, a.account);
      var open := OpenBatch(current.batches, a.code);
      if viewer.Some? && open.Some? {
        OpenIsThere(current, a.code, open.value);
        var c := if a.choice == "yes" then Yes else No;
        RecordKeepsTime(current, a.code, open.value, viewer.value, a.option, c);
        RecordKeepsSessions(current, a.code, open.value, viewer.value, a.option, c);
      }
    }
  }

  lemma RecordKeepsSessions(db: Db, code: Code, b: BatchId, p: PersonId, x: BatchItemId, choice: Choice)
    requires b in db.batches
    ensures RecordVote(db, code, b, p, x, choice).sessions == db.sessions
  {
    hide EverybodyFinished, CloseRound;
    CloseSpares(db.(responses := db.responses[Ballot(x, p) := choice]), code, b);
  }

  lemma StepTimed(db: Db, a: Action)
    requires Timed(db)
    ensures Timed(Step(db, a).0)
  {
    hide JoinSession, StartVoting, Vote, CloseByHand, Decide, NextBatch, FinishSession, RemoveParticipant, Look;
    hide ChosenTargets;
    if a.Start? {
      StartClocks(db, a);
    } else if a.CastVote? {
      VoteClocks(db, a);
    } else if a.Join? || a.View? {
      GuestClocks(db, a);
    } else if a.Next? {
      NextClocks(db, a);
    } else if a.Close? || a.Finish? {
      ClosingClocks(db, a);
    } else if a.KeepOrPass? || a.Remove? {
      RowClocks(db, a);
    }
  }

  /** In every reachable database each session's last activity is on record, so a
      live one always has a day to run out. */
  lemma {:induction false} EverySessionIsTimed(actions: seq<Action>)
    ensures Timed(Reached(actions))
    decreases |actions|
  {
    hide Step;
    if actions != [] {
      EverySessionIsTimed(actions[..|actions| - 1]);
      StepTimed(Reached(actions[..|actions| - 1]), actions[|actions| - 1]);
    }
  }

  // ------------------------------------------------------------ the library

  /** Adding an item puts it on its collection's shelf with its name and meals;
      editing changes these two, archiving the mark, of the one item named. */
  lemma LibraryEdits(db: Db, a: Action)
    requires Refs(db) && EditsLibrary(a)
    ensures var after := EditLibrary(db, a);
            && after == db.(items := after.items, nextItem := after.nextItem)
            && match a
               case AddItem(collection, name, types) =>
                 db.nextItem !in db.items && after.nextItem == db.nextItem + 1
                 && after.items == db.items[db.nextItem := Item(collection, name, types, false, 0, 0)]
               case EditItem(i, name, types) =>
                 after.items == (if i in db.items then db.items[i := db.items[i].(name := name, types := types)]
                                 else db.items)
               case ArchiveItem(i, archived) =>
                 after.items == (if i in db.items then db.items[i := db.items[i].(archived := archived)] else db.items)
  {
  }

  // ------------------------------------------------------------ what the voting pages count

  /** Everybody seated who has answered every option of the batch. */
  function Done(db: Db, code: Code, b: BatchId): set<PersonId> {
    set p | p in Seated(db, code) && CardsLeft(db, b, p) == {}
  }

  lemma CardsLeftMeans(db: Db, b: BatchId, p: PersonId)
    ensures CardsLeft(db, b, p)
            == set x | x in db.batchItems && db.batchItems[x].batch == b && Ballot(x, p) !in db.responses
    ensures CardsLeft(db, b, p) == {} <==>
            |Answered(db.responses, ItemsOf(db.batchItems, b), p)| == |ItemsOf(db.batchItems, b)|
  {
    var options, answered := ItemsOf(db.batchItems, b), Answered(db.responses, ItemsOf(db.batchItems, b), p);
    NothingLeft(answered, options);
  }

  /** The line "voters finished": of the open batch, how many of those seated have
      no card left, and how many are seated; with no batch open, all of all. */
  lemma VotersFinished(db: Db, code: Code)
    requires Newest(db.batches) && Sizes(db.batches, db.batchItems)
    ensures VotingProgress(db, code).1 == |Seated(db, code)|
    ensures forall b | b in db.batches && db.batches[b].session == code && db.batches[b].open ::
              VotingProgress(db, code).0 == |Done(db, code, b)|
    ensures (forall b | b in db.batches && db.batches[b].session == code :: !db.batches[b].open) ==>
            VotingProgress(db, code).0 == |Seated(db, code)|
  {
    assert Roster(db.people, code) == Seated(db, code);
    forall b | b in OpenBatches(db.batches, code) ensures VotingProgress(db, code).0 == |Done(db, code, b)| {
      FinishedAreDone(db, code, b);
    }
    NoneOpen(db, code);
    hide Done, Seated, Finished;
  }

  lemma FinishedAreDone(db: Db, code: Code, b: BatchId)
    requires Newest(db.batches) && Sizes(db.batches, db.batchItems) && b in OpenBatches(db.batches, code)
    ensures VotingProgress(db, code).0 == |Done(db, code, b)|
  {
    OneOpenBatch(db, code, b);
    var roster, options := Roster(db.people, code), ItemsOf(db.batchItems, b);
    forall p ensures CardsLeft(db, b, p) == {} <==> |Answered(db.responses, options, p)| == |options| {
      CardsLeftMeans(db, b, p);
    }
    hide CardsLeft, Answered, ItemsOf;
    assert Done(db, code, b) == set p | p in roster && |Answered(db.responses, options, p)| == |options|;
  }

  /** A batch closes by itself exactly when the two numbers meet. */
  lemma ClosesWhenAllFinished(db: Db, code: Code, b: BatchId)
    requires Newest(db.batches) && Sizes(db.batches, db.batchItems)
    requires b in db.batches && db.batches[b].session == code && db.batches[b].open
    ensures var (finished, roster) := VotingProgress(db, code);
            && (EverybodyFinished(db, code, b) <==> roster > 0 && finished >= roster)
            && (AllIn(db, code, b) <==> finished == roster)
  {
    OneOpenBatch(db, code, b);
    VotersFinished(db, code);
    SubsetSize(Done(db, code, b), Seated(db, code));
    AllDone(db, code, b);
    hide Done, Seated, AllIn, Answered;
  }

  lemma AllDone(db: Db, code: Code, b: BatchId)
    ensures Done(db, code, b) == Seated(db, code) <==> AllIn(db, code, b)
  {
    forall p ensures CardsLeft(db, b, p) == {} <==>
                     forall x | x in db.batchItems && db.batchItems[x].batch == b :: Ballot(x, p) in db.responses
    {
      CardsLeftMeans(db, b, p);
      if CardsLeft(db, b, p) == {} {
        forall x | x in db.batchItems && db.batchItems[x].batch == b ensures Ballot(x, p) in db.responses {
          assert x !in CardsLeft(db, b, p);
        }
      }
    }
    hide CardsLeft, Seated;
    if Done(db, code, b) == Seated(db, code) {
      forall p, x | p in Seated(db, code) && x in db.batchItems && db.batchItems[x].batch == b
        ensures Ballot(x, p) in db.responses
      {
        assert p in Done(db, code, b);
      }
    }
  }
}
