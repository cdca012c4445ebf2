/** Where vote rows come from and where they go: a row is written only by the
    vote that casts it, for the participant its sender is known as, and deleted
    only by a request that names the row's session. */
module Casting {
  import opened Prelude
  import opened SessionLogic
  import opened Tables
  import opened Handlers
  import opened Preservation
  import opened Runs
  import opened History
  import opened Endings
  import opened Lifecycle

  /** The request writes this vote row, with this choice. */
  ghost predicate Casts(db: Db, a: Action, k: Ballot, choice: Choice) {
    && a.CastVote? && a.option == k.item && a.choice == Spelled(choice)
    && ViewerParticipant(db.people, a.code, a.cookie, a.account) == Some(k.voter)
    && InSession(db.batchItems, db.batches, a.code, k.item)
  }

  /** Rows only go, and only those of one session. */
  ghost predicate OnlyDrops(db: Db, after: map<Ballot, Choice>, code: Code) {
    && (forall k | k in after :: k in db.responses && after[k] == db.responses[k])
    && (forall k | k in db.responses && k !in after :: InSession(db.batchItems, db.batches, code, k.item))
  }

  lemma NoneDropped(db: Db, code: Code)
    ensures OnlyDrops(db, db.responses, code)
  {
  }

  lemma ExpiryDrops(db: Db, code: Code, now: int)
    requires code in db.sessions
    ensures OnlyDrops(db, ExpireIfStale(db, code, now).responses, code)
  {
  }

  lemma CloseDrops(db: Db, code: Code, b: BatchId)
    requires b in BatchesOf(db.batches, code)
    ensures OnlyDrops(db, CloseRound(db, code, b).responses, code)
  {
    hide TallyTable, CountTable, ShutTable, Roster;
  }

  lemma GateDrops(db: Db, code: Code, account: Option<Account>, now: int)
    ensures OnlyDrops(db, HostGate(db, code, account, now).db.responses, code)
  {
    NoneDropped(db, code);
    if code in db.sessions {
      ExpiryDrops(db, code, now);
      hide ExpireIfStale, OnlyDrops;
    }
  }

  lemma StartDrops(db: Db, code: Code, account: Option<Account>, now: int)
    ensures OnlyDrops(db, StartVoting(db, code, account, now).0.responses, code)
  {
    hide HostGate, StartAdmitted, OnlyDrops, Dealt;
    GateDrops(db, code, account, now);
    if HostGate(db, code, account, now).Admitted? {
      AdmittedIsLive(db, code, account, now);
      NoneDropped(db, code);
      StartShapes(db, code, now);
      var after := StartAdmitted(db, code, now).0;
      if track, chosen :| after == Touch(Dealt(db, code, track, chosen), code, now) {
        DealtDropsNone(db, code, track, chosen);
      }
    }
  }

  lemma DealtDropsNone(db: Db, code: Code, track: Track, chosen: seq<ItemId>)
    requires code in db.sessions
    ensures Dealt(db, code, track, chosen).responses == db.responses
  {
    hide NewOptions, NextSeq, SeqsOf;
  }

  lemma DecisionDropsNone(db: Db, x: BatchItemId, keep: bool)
    requires x in db.batchItems
    ensures WriteDecision(db, x, keep).responses == db.responses
  {
  }

  lemma NextDrops(db: Db, code: Code, account: Option<Account>, now: int)
    ensures OnlyDrops(db, NextBatch(db, code, account, now).0.responses, code)
  {
    hide HostGate, OnlyDrops, NextBatchAssembly, NewOptions, NextSeq, SeqsOf, Undecided, OpenBatch;
    GateDrops(db, code, account, now);
    NoneDropped(db, code);
  }

  lemma HostDrops(db: Db, a: Action)
    requires a.Close? || a.KeepOrPass? || a.Finish? || a.Remove?
    ensures OnlyDrops(db, Step(db, a).0.responses, a.code)
  {
    hide HostGate, OnlyDrops, CloseRound, WriteDecision, OpenBatches, Undecided;
    GateDrops(db, a.code, a.account, a.now);
    NoneDropped(db, a.code);
    var open := OpenBatch(db.batches, a.code);
    if open.Some? {
      OpenIsOurs(db, a.code, open.value);
      CloseDrops(db, a.code, open.value);
    }
    if a.KeepOrPass? && a.option in db.batchItems {
      DecisionDropsNone(db, a.option, a.keep);
    }
  }

  lemma OpenIsOurs(db: Db, code: Code, b: BatchId)
    requires b in OpenBatches(db.batches, code)
    ensures b in BatchesOf(db.batches, code)
  {
  }

  lemma GuestDrops(db: Db, a: Action)
    requires a.Join? || a.View?
    ensures OnlyDrops(db, Step(db, a).0.responses, a.code)
  {
    hide ExpireIfStale, OnlyDrops, ExistingRow;
    NoneDropped(db, a.code);
    if a.code in db.sessions {
      ExpiryDrops(db, a.code, a.now);
    }
  }

  /** One vote adds at most its own row; what it may close drops its own batch. */
  lemma RecordDrops(db: Db, code: Code, b: BatchId, p: PersonId, x: BatchItemId, choice: Choice)
    requires b in BatchesOf(db.batches, code)
    ensures var after, k := RecordVote(db, code, b, p, x, choice).responses, Ballot(x, p);
            if k in db.responses then after == db.responses
            else OnlyDrops(db, after - {k}, code) && (k in after ==> after[k] == choice)
  {
    hide CloseRound, EverybodyFinished;
    var k := Ballot(x, p);
    if k !in db.responses {
      CloseDrops(db.(responses := db.responses[k := choice]), code, b);
    }
  }

  /** The rows after a vote. */
  ghost predicate Voted(db: Db, after: map<Ballot, Choice>, a: Action)
    requires a.CastVote?
  {
    && (forall k | k in after :: (k in db.responses && after[k] == db.responses[k]) || Casts(db, a, k, after[k]))
    && (forall k | k in db.responses && k !in after :: InSession(db.batchItems, db.batches, a.code, k.item))
  }

  lemma DropsVoted(db: Db, after: map<Ballot, Choice>, a: Action)
    requires a.CastVote? && OnlyDrops(db, after, a.code)
    ensures Voted(db, after, a)
  {
    hide Casts;
  }

  lemma RecordVoted(db: Db, a: Action, b: BatchId, p: PersonId, choice: Choice)
    requires a.CastVote? && b in BatchesOf(db.batches, a.code) && a.choice == Spelled(choice)
    requires a.option in db.batchItems && db.batchItems[a.option].batch == b
    requires ViewerParticipant(db.people, a.code, a.cookie, a.account) == Some(p)
    ensures Voted(db, RecordVote(db, a.code, b, p, a.option, choice).responses, a)
  {
    hide RecordVote, ViewerParticipant;
    RecordDrops(db, a.code, b, p, a.option, choice);
    var after, k := RecordVote(db, a.code, b, p, a.option, choice).responses, Ballot(a.option, p);
    assert k !in db.responses ==> forall j | j in after && j != k :: j in after - {k} && after[j] == (after - {k})[j];
  }

  lemma VoteCasts(db: Db, a: Action)
    requires a.CastVote?
    ensures Voted(db, Step(db, a).0.responses, a)
  {
    hide ExpireIfStale, RecordVote, ViewerParticipant, OpenBatches, Voted, OnlyDrops;
    NoneDropped(db, a.code);
    DropsVoted(db, db.responses, a);
    if a.code in db.sessions {
      ExpirySpares(db, a.code, a.now);
      ExpiryDrops(db, a.code, a.now);
      var current := ExpireIfStale(db, a.code, a.now);
      DropsVoted(db, current.responses, a);
      ExpirySessions(db, a.code, a.now);
      hide Stale;
      var viewer := ViewerParticipant(current.people, a.code, a.cookie, a.account);
      var open := OpenBatch(current.batches, a.code);
      if Live(current.sessions[a.code].status) && viewer.Some? && open.Some? && a.option in current.batchItems
         && current.batchItems[a.option].batch == open.value && (a.choice == "yes" || a.choice == "no") {
        ExpirySame(db, a.code, a.now);
        OpenIsOurs(db, a.code, open.value);
        RecordVoted(db, a, open.value, viewer.value, if a.choice == "yes" then Yes else No);
      }
    }
  }

  /** Every vote row after a request was there before, unchanged, or is the one
      the request casts; and rows of a session it does not name all stay. */
  lemma StepVotes(db: Db, a: Action, code: Code)
    ensures var after := Step(db, a).0.responses;
            && (forall k | k in after ::
                  (k in db.responses && after[k] == db.responses[k]) || Casts(db, a, k, after[k]))
            && (!Addresses(a, code) ==>
                  forall k | k in db.responses && InSession(db.batchItems, db.batches, code, k.item) :: k in after)
  {
    hide JoinSession, StartVoting, Vote, CloseByHand, Decide, NextBatch, FinishSession, RemoveParticipant;
    hide ExpireIfStale;
    hide ChosenTargets, ViewerParticipant;
    match a
    case AddItem(_, _, _) =>
    case EditItem(_, _, _) =>
    case ArchiveItem(_, _) =>
    case Create(_, _, _, _, _, _, _, _, _, _) =>
    case Join(_, _, _, _) => GuestDrops(db, a);
    case Start(_, account, now) => StartDrops(db, a.code, account, now);
    case CastVote(_, _, _, _, _, _) => VoteCasts(db, a);
    case Close(_, _, _) => HostDrops(db, a);
    case KeepOrPass(_, _, _, _, _, _) => HostDrops(db, a);
    case Next(_, account, now) => NextDrops(db, a.code, account, now);
    case Finish(_, _, _) => HostDrops(db, a);
    case Remove(_, _, _, _) => HostDrops(db, a);
    case View(_, _) => GuestDrops(db, a);
  }
}
