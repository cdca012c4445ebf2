/** What a request leaves alone: the record of every session it does not name,
    and of every session that has ended; and what finishing leaves undecided. */
module Endings {
  import opened Prelude
  import opened SessionLogic
  import opened Tables
  import opened Pool
  import opened Handlers
  import opened Invariants
  import opened Preservation
  import opened Runs

  predicate Over(db: Db, code: Code) {
    code in db.sessions && !Live(db.sessions[code].status)
  }

  /** The requests that name a session. */
  predicate Addresses(a: Action, code: Code) {
    match a
    case AddItem(_, _, _) => false
    case EditItem(_, _, _) => false
    case ArchiveItem(_, _) => false
    case Create(_, _, _, _, _, _, _, _, _, _) => false
    case Join(c, _, _, _) => c == code
    case Start(c, _, _) => c == code
    case CastVote(c, _, _, _, _, _) => c == code
    case Close(c, _, _) => c == code
    case KeepOrPass(c, _, _, _, _, _) => c == code
    case Next(c, _, _) => c == code
    case Finish(c, _, _) => c == code
    case Remove(c, _, _, _) => c == code
    case View(c, _) => c == code
  }

  /** A request to an ended session writes nothing, counters included. */
  lemma NothingHappensToEnded(db: Db, a: Action, code: Code)
    requires Over(db, code) && Addresses(a, code)
    ensures Step(db, a).0 == db
  {
  }

  // ------------------------------------------------------------ requests that name another session

  /** The durable record of a session: its row, its last activity, its batches and
      their options. */
  function RoundsRecord(batches: map<BatchId, Batch>, code: Code): map<BatchId, Batch> {
    map b | b in batches && batches[b].session == code :: batches[b]
  }

  function OptionsRecord(batches: map<BatchId, Batch>, batchItems: map<BatchItemId, BatchItem>,
                         code: Code): map<BatchItemId, BatchItem>
  {
    map x | x in batchItems && InSession(batchItems, batches, code, x) :: batchItems[x]
  }

  ghost predicate SameAt<T>(a: map<Code, T>, b: map<Code, T>, code: Code) {
    (code in a <==> code in b) && (code in a ==> a[code] == b[code])
  }

  ghost predicate SameRecord(a: Db, b: Db, code: Code) {
    && code in a.sessions && code in b.sessions && a.sessions[code] == b.sessions[code]
    && SameAt(a.activity, b.activity, code)
    && RoundsRecord(a.batches, code) == RoundsRecord(b.batches, code)
    && OptionsRecord(a.batches, a.batchItems, code) == OptionsRecord(b.batches, b.batchItems, code)
  }

  lemma ExpiryElsewhere(db: Db, other: Code, now: int, code: Code)
    requires code in db.sessions && other in db.sessions && other != code
    ensures SameRecord(db, ExpireIfStale(db, other, now), code)
  {
  }

  lemma CloseElsewhere(db: Db, other: Code, b: BatchId, code: Code)
    requires code in db.sessions && b in OpenBatches(db.batches, other) && other != code
    ensures SameRecord(db, CloseRound(db, other, b), code)
  {
    hide Roster, YesVoters, CountTable, Classify;
    var after := CloseRound(db, other, b);
    assert forall x ::
        InSession(after.batchItems, after.batches, code, x) <==> InSession(db.batchItems, db.batches, code, x);
    assert RoundsRecord(after.batches, code) == RoundsRecord(db.batches, code);
    assert OptionsRecord(after.batches, after.batchItems, code) == OptionsRecord(db.batches, db.batchItems, code);
  }

  lemma PassElsewhere(db: Db, ids: set<BatchItemId>, code: Code)
    requires code in db.sessions && forall x | x in ids :: !InSession(db.batchItems, db.batches, code, x)
    ensures SameRecord(db, PassAll(db, ids), code)
  {
    var after := PassAll(db, ids);
    assert forall x ::
        InSession(after.batchItems, after.batches, code, x) <==> InSession(db.batchItems, db.batches, code, x);
    assert OptionsRecord(after.batches, after.batchItems, code) == OptionsRecord(db.batches, db.batchItems, code);
  }

  lemma DealtRecord(batches: map<BatchId, Batch>, batchItems: map<BatchItemId, BatchItem>,
                    b: BatchId, row: Batch, first: BatchItemId, chosen: seq<ItemId>, code: Code)
    requires b !in batches && row.session != code
    requires forall x | x in batchItems :: x < first && batchItems[x].batch != b
    ensures RoundsRecord(batches[b := row], code) == RoundsRecord(batches, code)
    ensures OptionsRecord(batches[b := row], batchItems + NewOptions(b, first, chosen), code)
            == OptionsRecord(batches, batchItems, code)
  {
    var after := batchItems + NewOptions(b, first, chosen);
    forall x ensures InSession(after, batches[b := row], code, x) <==> InSession(batchItems, batches, code, x) {
    }
  }

  lemma DealElsewhere(db: Db, other: Code, track: Track, chosen: seq<ItemId>, code: Code)
    requires Refs(db) && code in db.sessions && other != code
    ensures SameRecord(db, OpenRound(db, other, track, chosen), code)
  {
    DealtIsNew(db);
    DealtRecord(db.batches, db.batchItems, db.nextBatch, OpenRound(db, other, track, chosen).batches[db.nextBatch],
                db.nextBatchItem, chosen, code);
  }

  lemma DecideElsewhere(db: Db, x: BatchItemId, keep: bool, code: Code)
    requires x in db.batchItems && code in db.sessions && !InSession(db.batchItems, db.batches, code, x)
    ensures SameRecord(db, WriteDecision(db, x, keep), code)
  {
    var after := WriteDecision(db, x, keep);
    assert forall y ::
        InSession(after.batchItems, after.batches, code, y) <==> InSession(db.batchItems, db.batches, code, y);
    assert OptionsRecord(after.batches, after.batchItems, code) == OptionsRecord(db.batches, db.batchItems, code);
  }

  /** Writes to tables outside every record, or to another session's row. */
  lemma OtherRowElsewhere(a: Db, b: Db, code: Code)
    requires code in a.sessions && code in b.sessions && b.sessions[code] == a.sessions[code]
    requires a.batches == b.batches && a.batchItems == b.batchItems && SameAt(a.activity, b.activity, code)
    ensures SameRecord(a, b, code)
  {
  }

  lemma GateElsewhere(db: Db, other: Code, account: Option<Account>, now: int, code: Code)
    requires code in db.sessions && other != code
    ensures SameRecord(db, HostGate(db, other, account, now).db, code)
  {
    hide SameRecord;
    OtherRowElsewhere(db, db, code);
    if other in db.sessions {
      ExpiryElsewhere(db, other, now, code);
    }
  }

  lemma VoteElsewhere(db: Db, other: Code, cookie: Option<PersonId>, account: Option<Account>, x: BatchItemId,
                      choice: string, now: int, code: Code)
    requires code in db.sessions && other != code
    ensures SameRecord(db, Vote(db, other, cookie, account, x, choice, now).0, code)
  {
    hide ExpireIfStale, CloseRound, EverybodyFinished, RoundsRecord, OptionsRecord;
    if other in db.sessions {
      ExpiryElsewhere(db, other, now, code);
      var current := ExpireIfStale(db, other, now);
      var open := OpenBatch(current.batches, other);
      var viewer := ViewerParticipant(current.people, other, cookie, account);
      if open.Some? && viewer.Some? {
        var c := if choice == "yes" then Yes else No;
        CloseElsewhere(current.(responses := current.responses[Ballot(x, viewer.value) := c]), other, open.value, code);
      }
    }
  }

  lemma StartAdmittedElsewhere(db: Db, other: Code, now: int, code: Code)
    requires Refs(db) && code in db.sessions && other != code && other in db.sessions
    ensures SameRecord(db, StartAdmitted(db, other, now).0, code)
  {
    hide Refs, OpenRound, PoolOf, AssembleBatch, FirstTrack, ApplyTransition, OpenBatch, RoundsRecord, OptionsRecord;
    var s := db.sessions[other];
    var target := ApplyTransition(s.status, Voting);
    var track := FirstTrack(s.targets);
    OtherRowElsewhere(db, db, code);
    if target.Ok? && s.collection.Some? && OpenBatch(db.batches, other).None? && track.Some? {
      var chosen := AssembleBatch(PoolOf(db.items, db.nextItem, s, track.value), {});
      DealElsewhere(db, other, track.value, chosen, code);
      RoundShows(db, other, track.value, chosen);
      var dealt := OpenRound(db, other, track.value, chosen);
      OtherRowElsewhere(dealt, Touch(SetStatus(dealt, other, target.value), other, now), code);
    } else if target.Ok? {
      OtherRowElsewhere(db, Touch(SetStatus(db, other, target.value), other, now), code);
    }
  }

  lemma StartElsewhere(db: Db, other: Code, account: Option<Account>, now: int, code: Code)
    requires Refs(db) && code in db.sessions && other != code
    ensures SameRecord(db, StartVoting(db, other, account, now).0, code)
  {
    hide Refs, HostGate, StartAdmitted, RoundsRecord, OptionsRecord;
    GateElsewhere(db, other, account, now, code);
    if HostGate(db, other, account, now).Admitted? {
      StartAdmittedElsewhere(db, other, now, code);
    }
  }

  lemma CloseByHandElsewhere(db: Db, other: Code, account: Option<Account>, now: int, code: Code)
    requires code in db.sessions && other != code
    ensures SameRecord(db, CloseByHand(db, other, account, now).0, code)
  {
    hide HostGate, CloseRound, RoundsRecord, OptionsRecord;
    GateElsewhere(db, other, account, now, code);
    if HostGate(db, other, account, now).Admitted? && OpenBatch(db.batches, other).Some? {
      CloseElsewhere(db, other, OpenBatch(db.batches, other).value, code);
    }
  }

  lemma DecisionElsewhere(db: Db, other: Code, account: Option<Account>, b: BatchId, x: BatchItemId, keep: bool,
                          now: int, code: Code)
    requires code in db.sessions && other != code
    ensures SameRecord(db, Decide(db, other, account, b, x, keep, now).0, code)
  {
    hide HostGate, WriteDecision, RoundsRecord, OptionsRecord;
    GateElsewhere(db, other, account, now, code);
    if x in db.batchItems && !InSession(db.batchItems, db.batches, code, x) {
      DecideElsewhere(db, x, keep, code);
    }
  }

  lemma NextElsewhere(db: Db, other: Code, account: Option<Account>, now: int, code: Code)
    requires Refs(db) && code in db.sessions && other != code
    ensures SameRecord(db, NextBatch(db, other, account, now).0, code)
  {
    hide Refs, HostGate, OpenRound, NextBatchAssembly, PassAll, RoundsRecord, OptionsRecord;
    GateElsewhere(db, other, account, now, code);
    if HostGate(db, other, account, now).Admitted? {
      var ids := Undecided(db.batchItems, db.batches, other);
      PassElsewhere(db, ids, code);
      PassSpares(db, ids);
      var (track, chosen) := NextBatchAssembly(db, other);
      if track.Some? {
        DealElsewhere(PassAll(db, ids), other, track.value, chosen, code);
      }
    }
  }

  lemma FinishElsewhere(db: Db, other: Code, account: Option<Account>, now: int, code: Code)
    requires code in db.sessions && other != code
    ensures SameRecord(db, FinishSession(db, other, account, now).0, code)
  {
    hide HostGate, CloseRound, PassAll, RoundsRecord, OptionsRecord;
    GateElsewhere(db, other, account, now, code);
    if HostGate(db, other, account, now).Admitted? {
      var open := OpenBatch(db.batches, other);
      var ids := Undecided(db.batchItems, db.batches, other);
      var closed := if open.Some? then Touch(CloseRound(db, other, open.value), other, now) else db;
      if open.Some? {
        CloseElsewhere(db, other, open.value, code);
        ClosedSession(db, other, open.value, code, ids);
      }
      PassElsewhere(closed, ids, code);
    }
  }

  lemma ClosedSession(db: Db, other: Code, b: BatchId, code: Code, ids: set<BatchItemId>)
    requires b in db.batches && other != code && ids == Undecided(db.batchItems, db.batches, other)
    ensures var after := CloseRound(db, other, b);
            forall x | x in ids :: !InSession(after.batchItems, after.batches, code, x)
  {
  }

  lemma JoinElsewhere(db: Db, other: Code, account: Option<Account>, name: string, now: int, code: Code)
    requires code in db.sessions && other != code
    ensures SameRecord(db, JoinSession(db, other, account, name, now).0, code)
  {
    hide RoundsRecord, OptionsRecord, ExpireIfStale, ExistingRow;
    OtherRowElsewhere(db, db, code);
    if other in db.sessions {
      ExpiryElsewhere(db, other, now, code);
    }
  }

  lemma RemoveElsewhere(db: Db, other: Code, account: Option<Account>, p: PersonId, now: int, code: Code)
    requires code in db.sessions && other != code
    ensures SameRecord(db, RemoveParticipant(db, other, account, p, now).0, code)
  {
    hide HostGate, RoundsRecord, OptionsRecord;
    GateElsewhere(db, other, account, now, code);
  }

  lemma CreateElsewhere(db: Db, a: Action, code: Code)
    requires code in db.sessions && a.Create?
    ensures SameRecord(db, Step(db, a).0, code)
  {
    hide RoundsRecord, OptionsRecord, ChosenTargets;
    OtherRowElsewhere(db, Step(db, a).0, code);
  }

  lemma LibraryElsewhere(db: Db, a: Action, code: Code)
    requires code in db.sessions && (a.AddItem? || a.EditItem? || a.ArchiveItem?)
    ensures SameRecord(db, EditLibrary(db, a), code)
  {
    OtherRowElsewhere(db, EditLibrary(db, a), code);
  }

  /** A request that names another session, or none, leaves this one's record. */
  lemma RecordElsewhere(db: Db, a: Action, code: Code)
    requires Refs(db) && code in db.sessions && !Addresses(a, code)
    ensures SameRecord(db, Step(db, a).0, code)
  {
    hide Refs, SameRecord, JoinSession, StartVoting, Vote, CloseByHand, Decide;
    hide NextBatch, FinishSession, RemoveParticipant, CreateSession, EditLibrary, ExpireIfStale;
    match a
    case AddItem(_, _, _) => LibraryElsewhere(db, a, code);
    case EditItem(_, _, _) => LibraryElsewhere(db, a, code);
    case ArchiveItem(_, _) => LibraryElsewhere(db, a, code);
    case Create(_, _, _, _, _, _, _, _, _, _) => CreateElsewhere(db, a, code);
    case Join(other, account, name, now) => JoinElsewhere(db, other, account, name, now, code);
    case Start(other, account, now) => StartElsewhere(db, other, account, now, code);
    case CastVote(other, cookie, account, x, choice, now) =>
      VoteElsewhere(db, other, cookie, account, x, choice, now, code);
    case Close(other, account, now) => CloseByHandElsewhere(db, other, account, now, code);
    case KeepOrPass(other, account, b, x, keep, now) => DecisionElsewhere(db, other, account, b, x, keep, now, code);
    case Next(other, account, now) => NextElsewhere(db, other, account, now, code);
    case Finish(other, account, now) => FinishElsewhere(db, other, account, now, code);
    case Remove(other, account, p, now) => RemoveElsewhere(db, other, account, p, now, code);
    case View(other, now) =>
      OtherRowElsewhere(db, db, code);
      if other in db.sessions {
        ExpiryElsewhere(db, other, now, code);
      }
  }

  /** No request of any kind changes an ended session's record. */
  lemma EndedIsFinal(db: Db, a: Action, code: Code)
    requires Refs(db) && Over(db, code)
    ensures SameRecord(db, Step(db, a).0, code)
  {
    hide SameRecord, Step;
    if Addresses(a, code) {
      NothingHappensToEnded(db, a, code);
      OtherRowElsewhere(db, db, code);
    } else {
      RecordElsewhere(db, a, code);
    }
  }

  /** Over any further run an ended session's record never changes. */
  lemma {:induction false} EndedForGood(db: Db, actions: seq<Action>, code: Code)
    requires Inv(db) && Over(db, code)
    ensures Over(Run(db, actions), code) && SameRecord(db, Run(db, actions), code)
    decreases |actions|
  {
    hide Targets, Rosters, Rounds, Newest, Sizes, Sourced, DealOrder, Reported, Tallies, Ballots, Counters, NoneOverdue;
    hide RoundsRecord, OptionsRecord, Step;
    if actions != [] {
      var init := actions[..|actions| - 1];
      EndedForGood(db, init, code);
      RunKeeps(db, init);
      EndedIsFinal(Run(db, init), actions[|actions| - 1], code);
    }
  }

  /** The same told from the start: whatever a run does after a session has
      ended, its record stays, and nobody and no vote of it is left. */
  lemma EndedStaysEnded(before: seq<Action>, after: seq<Action>, code: Code)
    ensures var ended, later := Reached(before), Run(Reached(before), after);
            Over(ended, code) ==>
            && SameRecord(ended, later, code)
            && Roster(later.people, code) == {}
            && (forall k | k in later.responses :: !InSession(later.batchItems, later.batches, code, k.item))
            && (ended.sessions[code].status == Complete ==> OpenBatches(later.batches, code) == {})
  {
    var ended, later := Reached(before), Run(Reached(before), after);
    hide Targets, Newest, Sizes, Sourced, DealOrder, Reported, Tallies, Counters, NoneOverdue, RoundsRecord;
    hide OptionsRecord;
    ReachedKeeps(before);
    RunKeeps(ended, after);
    if Over(ended, code) {
      EndedForGood(ended, after, code);
      assert forall p | p in later.people :: later.people[p].session != code;
    }
  }

  // ------------------------------------------------------------ what finishing leaves undecided

  /** Options of a batch that would close as majority items: more yes than no,
      but not everybody. */
  function MajorityOptions(db: Db, code: Code, b: BatchId): set<BatchItemId> {
    var roster := |Roster(db.people, code)|;
    set x | x in ItemsOf(db.batchItems, b)
            && var yes := |YesVoters(db.responses, x)|; yes < roster && yes > roster - yes
  }

  lemma ClosedUndecided(db: Db, code: Code, b: BatchId)
    requires Reported(db.batches, db.batchItems) && b in OpenBatches(db.batches, code) && Roster(db.people, code) != {}
    requires forall x | x in ItemsOf(db.batchItems, b) :: |YesVoters(db.responses, x)| <= |Roster(db.people, code)|
    ensures var after := CloseRound(db, code, b);
            Undecided(after.batchItems, after.batches, code)
            == Undecided(db.batchItems, db.batches, code) + MajorityOptions(db, code, b)
  {
    var after := CloseRound(db, code, b);
    assert |Roster(db.people, code)| > 0;
    forall x | x in ItemsOf(db.batchItems, b)
      ensures after.batchItems[x].outcome.None? <==> x in MajorityOptions(db, code, b)
    {
      assert Unreported(db.batchItems[x]);
    }
    forall x ensures x in Undecided(after.batchItems, after.batches, code)
                     <==> x in Undecided(db.batchItems, db.batches, code) || x in MajorityOptions(db, code, b)
    {
    }
  }

  lemma PassedUndecided(db: Db, ids: set<BatchItemId>, code: Code)
    ensures Undecided(PassAll(db, ids).batchItems, db.batches, code) == Undecided(db.batchItems, db.batches, code) - ids
  {
    var after := PassAll(db, ids);
    forall x
      ensures x in Undecided(after.batchItems, db.batches, code)
              <==> x in Undecided(db.batchItems, db.batches, code) && x !in ids
    {
    }
  }

  /** Finishing passes every undecided item except the majority items of a batch
      it closes itself, which stay undecided for good. */
  lemma FinishLeavesUndecided(db: Db, code: Code, account: Option<Account>, now: int)
    requires Refs(db) && Rosters(db.sessions, db.people) && Reported(db.batches, db.batchItems)
    requires Ballots(db.sessions, db.people, db.batches, db.batchItems, db.responses)
    requires HostGate(db, code, account, now).Admitted?
    ensures var after := FinishSession(db, code, account, now).0;
            Undecided(after.batchItems, after.batches, code)
            == match OpenBatch(db.batches, code)
               case None => {}
               case Some(b) => MajorityOptions(db, code, b)
  {
    hide Rosters;
    var ids := Undecided(db.batchItems, db.batches, code);
    match OpenBatch(db.batches, code)
    case None =>
      PassedUndecided(db, ids, code);
    case Some(b) =>
      FinishWithOpen(db, code, b);
  }

  lemma FinishWithOpen(db: Db, code: Code, b: BatchId)
    requires Refs(db) && Rosters(db.sessions, db.people) && Reported(db.batches, db.batchItems)
    requires Ballots(db.sessions, db.people, db.batches, db.batchItems, db.responses)
    requires code in db.sessions && Live(db.sessions[code].status) && b in OpenBatches(db.batches, code)
    ensures var closed := CloseRound(db, code, b);
            Undecided(PassAll(closed, Undecided(db.batchItems, db.batches, code)).batchItems, closed.batches, code)
            == MajorityOptions(db, code, b)
  {
    HostedRosterNonempty(db, code);
    forall x | x in ItemsOf(db.batchItems, b) ensures |YesVoters(db.responses, x)| <= |Roster(db.people, code)| {
      YesWithinRoster(db, x);
    }
    ClosedUndecided(db, code, b);
    var ids := Undecided(db.batchItems, db.batches, code);
    PassedUndecided(CloseRound(db, code, b), ids, code);
    forall x | x in MajorityOptions(db, code, b) ensures x !in ids {
    }
  }

  /** So a finish decides everything exactly when no batch is open, or the open
      one has no majority item. */
  lemma FinishDecidesAll(actions: seq<Action>, code: Code, account: Option<Account>, now: int)
    ensures var db := Reached(actions);
            HostGate(db, code, account, now).Admitted? ==>
            var after := FinishSession(db, code, account, now).0;
            (Undecided(after.batchItems, after.batches, code) == {}
             <==> OpenBatch(db.batches, code).None?
                  || MajorityOptions(db, code, OpenBatch(db.batches, code).value) == {})
  {
    var db := Reached(actions);
    hide Refs, Targets, Rosters, Rounds, Newest, Sizes, Sourced;
    hide DealOrder, Reported, Tallies, Ballots, Counters, NoneOverdue;
    hide HostGate, FinishSession;
    ReachedKeeps(actions);
    if HostGate(db, code, account, now).Admitted? {
      FinishLeavesUndecided(db, code, account, now);
    }
  }
}
