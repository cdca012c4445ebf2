/** The invariant over whole runs: whatever requests arrive, in whatever order. */
module Runs {
  import opened Prelude
  import opened SessionLogic
  import opened Tables
  import opened Pool
  import opened Handlers
  import opened Invariants
  import opened Preservation

  lemma TouchedRefs(db: Db, code: Code, now: int)
    requires Refs(db)
    ensures Refs(Touch(db, code, now))
  {
  }

  lemma TouchKeeps(db: Db, code: Code, now: int)
    requires Inv(db)
    ensures Inv(Touch(db, code, now))
  {
    hide Refs, Targets, Rosters, Rounds, Newest, Sizes, Sourced;
    hide DealOrder, Reported, Tallies, Ballots, Counters, NoneOverdue;
    TouchedRefs(db, code, now);
  }

  lemma GateKeeps(db: Db, code: Code, account: Option<Account>, now: int)
    requires Inv(db)
    ensures Inv(HostGate(db, code, account, now).db)
  {
    hide Refs, Targets, Rosters, Rounds, Newest, Sizes, Sourced;
    hide DealOrder, Reported, Tallies, Ballots, Counters, NoneOverdue;
    if code in db.sessions {
      ExpiryKeeps(db, code, now);
    }
  }

  // ------------------------------------------------------------ dealing

  /** Items the assembly may pick for a track are items of the collection. */
  lemma AssembledIsDealable(db: Db, code: Code, track: Track, offered: set<ItemId>, chosen: seq<ItemId>)
    requires Refs(db) && code in db.sessions && Live(db.sessions[code].status)
    requires db.sessions[code].collection.Some? && track in db.sessions[code].targets
    requires OpenBatch(db.batches, code).None?
    requires chosen == AssembleBatch(PoolOf(db.items, db.nextItem, db.sessions[code], track), offered) && chosen != []
    ensures Dealable(db, code, track, chosen)
  {
    PoolIsEligible(db.items, db.nextItem, db.sessions[code], track);
    AssembleBatchDeals(PoolOf(db.items, db.nextItem, db.sessions[code], track), offered, BATCH_SIZE);
  }

  /** What `next_batch` deals: an unmet track's un-offered items. */
  ghost predicate Assembles(db: Db, code: Code, track: Track, chosen: seq<ItemId>)
    requires code in db.sessions
  {
    && track in db.sessions[code].targets
    && |Kept(db.batchItems, db.batches, code, track)| < db.sessions[code].targets[track]
    && chosen == AssembleBatch(PoolOf(db.items, db.nextItem, db.sessions[code], track),
                               Offered(db.batchItems, db.batches, code))
    && chosen != []
  }

  /** The assembly finds a track exactly when some listed track is unmet and has
      an un-offered item left, and then picks for the first such track. */
  lemma {:induction false} AssemblyFinds(db: Db, code: Code, order: seq<Track>)
    requires code in db.sessions
    ensures var (track, chosen) := NextBatchAssembly(db, code, order);
            && (track.Some? ==> track.value in order && Assembles(db, code, track.value, chosen)
                                && forall t, c | PassedOver(order, track.value, t) :: !Assembles(db, code, t, c))
            && (track.None? ==> chosen == [] && forall t, c | t in order :: !Assembles(db, code, t, c))
    decreases |order|
  {
    if order != [] {
      AssemblyFinds(db, code, order[1..]);
    }
  }

  /** `t` stands in the order before any place of `track`. */
  predicate PassedOver(order: seq<Track>, track: Track, t: Track) {
    order != [] && order[0] != track && (order[0] == t || PassedOver(order[1..], track, t))
  }

  /** The same for a start, which deals to the first track with a target. */
  lemma {:induction false} FirstTrackIsFirst(targets: map<Track, nat>, order: seq<Track>)
    ensures var track := FirstTrack(targets, order);
            track.Some? ==> forall t | PassedOver(order, track.value, t) && t in targets :: targets[t] == 0
  {
    if order != [] {
      FirstTrackIsFirst(targets, order[1..]);
    }
  }

  /** What the create form asks of each track. */
  function Asked(collection: Option<nat>, breakfasts: int, lunches: int, dinners: int, picks: int, t: Track): int {
    match t
    case Breakfast => if collection.Some? then breakfasts else 0
    case Lunch => if collection.Some? then lunches else 0
    case Dinner => if collection.Some? then dinners else 0
    case Picks => if collection.Some? then 0 else picks
  }

  /** The form is accepted exactly when no number exceeds the cap and some track
      is asked for, and the targets are the positive numbers asked. */
  lemma TargetsAreAsked(collection: Option<nat>, breakfasts: int, lunches: int, dinners: int, picks: int)
    ensures var r := ChosenTargets(collection, breakfasts, lunches, dinners, picks);
            && (r.Ok? <==> breakfasts <= 20 && lunches <= 20 && dinners <= 20 && picks <= 20
                           && exists t :: Asked(collection, breakfasts, lunches, dinners, picks, t) > 0)
            && (r.Ok? ==> forall t ::
                  var n := Asked(collection, breakfasts, lunches, dinners, picks, t);
                  (t in r.value <==> n > 0) && (t in r.value ==> r.value[t] == n))
  {
    if collection.Some? {
      var meals := MealTargets(breakfasts, lunches, dinners);
      forall t ensures t in meals <==> Asked(collection, breakfasts, lunches, dinners, picks, t) > 0 {
      }
      if meals != map[] {
        var t :| t in meals;
        assert Asked(collection, breakfasts, lunches, dinners, picks, t) > 0;
      }
    } else {
      assert Asked(collection, breakfasts, lunches, dinners, picks, Picks) == picks;
    }
  }

  lemma EveryTrackListed(t: Track)
    ensures t in TRACK_ORDER
  {
    match t
    case Breakfast => assert TRACK_ORDER[0] == t;
    case Lunch => assert TRACK_ORDER[1] == t;
    case Dinner => assert TRACK_ORDER[2] == t;
    case Picks => assert TRACK_ORDER[3] == t;
  }

  /** `(None, [])` comes back exactly when every track is met or exhausted. */
  lemma NothingToDealMeans(db: Db, code: Code)
    requires code in db.sessions && forall i | i in db.items :: i < db.nextItem
    ensures NextBatchAssembly(db, code) == (None, [])
            <==> forall t | t in db.sessions[code].targets ::
                   || |Kept(db.batchItems, db.batches, code, t)| >= db.sessions[code].targets[t]
                   || forall i | Eligible(db.items, db.sessions[code].collection, t, i) ::
                        i in Offered(db.batchItems, db.batches, code)
  {
    AssemblyFinds(db, code, TRACK_ORDER);
    var offered := Offered(db.batchItems, db.batches, code);
    forall t | t in db.sessions[code].targets
      ensures (exists c :: Assembles(db, code, t, c))
              <==> |Kept(db.batchItems, db.batches, code, t)| < db.sessions[code].targets[t]
                   && exists i :: Eligible(db.items, db.sessions[code].collection, t, i) && i !in offered
    {
      var pool := PoolOf(db.items, db.nextItem, db.sessions[code], t);
      PoolIsEligible(db.items, db.nextItem, db.sessions[code], t);
      AssembleBatchDeals(pool, offered, BATCH_SIZE);
      var c := AssembleBatch(pool, offered);
      assert Assembles(db, code, t, c) || c == []
          || |Kept(db.batchItems, db.batches, code, t)| >= db.sessions[code].targets[t];
    }
    forall t ensures t in TRACK_ORDER {
      EveryTrackListed(t);
    }
  }

  lemma PassedSame(db: Db, ids: set<BatchItemId>, code: Code, track: Track, chosen: seq<ItemId>)
    requires Dealable(db, code, track, chosen)
    ensures Dealable(PassAll(db, ids), code, track, chosen)
  {
  }

  // ------------------------------------------------------------ handlers

  lemma CreateKeeps(db: Db, host: Account, name: string, coll: Option<nat>, br: int, lu: int, di: int, pi: int,
                    draws: seq<Code>, rolls: seq<seq<nat>>, now: int)
    requires Inv(db)
    ensures Inv(CreateSession(db, host, name, coll, br, lu, di, pi, draws, rolls, now).0)
  {
    hide Refs, Targets, Rosters, Rounds, Newest, Sizes, Sourced;
    hide DealOrder, Reported, Tallies, Ballots, Counters, NoneOverdue;
    var targets := ChosenTargets(coll, br, lu, di, pi);
    var code := MakeCode(db.sessions.Keys, draws);
    if targets.Ok? && code.Some? {
      var s := Session(Lobby, host, coll, targets.value, rolls);
      ChosenTargetsOk(coll, br, lu, di, pi, s);
      FoundKeeps(db, code.value, s, Person(code.value, Some(host), name), now);
    }
  }

  lemma JoinKeeps(db: Db, code: Code, account: Option<Account>, name: string, now: int)
    requires Inv(db)
    ensures Inv(JoinSession(db, code, account, name, now).0)
  {
    hide Refs, Targets, Rosters, Rounds, Newest, Sizes, Sourced;
    hide DealOrder, Reported, Tallies, Ballots, Counters, NoneOverdue;
    if code in db.sessions {
      ExpiryKeeps(db, code, now);
      var current := ExpireIfStale(db, code, now);
      if current.sessions[code].status == Lobby
         && (account.Some? ==> ExistingRow(current.people, code, account.value).None?) && name != "" {
        SeatKeeps(current, Person(code, account, name));
        TouchKeeps(current.(people := current.people[current.nextPerson := Person(code, account, name)],
                            nextPerson := current.nextPerson + 1), code, now);
      }
    }
  }

  lemma StartVotingKeeps(db: Db, code: Code, account: Option<Account>, now: int)
    requires Inv(db)
    ensures Inv(StartVoting(db, code, account, now).0)
  {
    hide Refs, Targets, Rosters, Rounds, Newest, Sizes, Sourced;
    hide DealOrder, Reported, Tallies, Ballots, Counters, NoneOverdue;
    GateKeeps(db, code, account, now);
    if HostGate(db, code, account, now).Admitted? {
      var s := db.sessions[code];
      if s.collection.Some? && OpenBatch(db.batches, code).None? {
        var track := FirstTrack(s.targets);
        if track.Some? {
          var chosen := AssembleBatch(PoolOf(db.items, db.nextItem, s, track.value), {});
          if chosen != [] {
            AssembledIsDealable(db, code, track.value, {}, chosen);
            DealKeeps(db, code, track.value, chosen);
            TouchKeeps(Dealt(db, code, track.value, chosen), code, now);
          }
        }
      } else {
        StartKeeps(db, code);
        TouchKeeps(SetStatus(db, code, Voting), code, now);
      }
    }
  }

  lemma OpenMeansVoting(db: Db, code: Code)
    requires Rounds(db.sessions, db.batches) && code in db.sessions && Live(db.sessions[code].status)
    ensures OpenBatch(db.batches, code).Some? ==> db.sessions[code].status == Voting
  {
  }

  lemma CastVoteKeeps(db: Db, code: Code, cookie: Option<PersonId>, account: Option<Account>,
                      x: BatchItemId, choice: string, now: int)
    requires Inv(db)
    ensures Inv(Vote(db, code, cookie, account, x, choice, now).0)
  {
    hide Refs, Targets, Rosters, Rounds, Newest, Sizes, Sourced;
    hide DealOrder, Reported, Tallies, Ballots, Counters, NoneOverdue;
    if code in db.sessions {
      ExpiryKeeps(db, code, now);
      var current := ExpireIfStale(db, code, now);
      var viewer := ViewerParticipant(current.people, code, cookie, account);
      var open := OpenBatch(current.batches, code);
      if Live(current.sessions[code].status) {
        OpenMeansVoting(current, code);
      }
      if Live(current.sessions[code].status) && viewer.Some? && open.Some? && x in current.batchItems
         && current.batchItems[x].batch == open.value {
        var c := if choice == "yes" then Yes else No;
        VoteKeeps(current, code, open.value, viewer.value, x, c);
        TouchKeeps(RecordVote(current, code, open.value, viewer.value, x, c), code, now);
      }
    }
  }

  lemma CloseRoundKeeps(db: Db, code: Code, b: BatchId)
    requires Inv(db) && code in db.sessions && db.sessions[code].status == Voting && b in OpenBatches(db.batches, code)
    ensures Inv(CloseRound(db, code, b))
  {
    hide Refs, Targets, Rosters, Rounds, Newest, Sizes, Sourced;
    hide DealOrder, Reported, Tallies, Ballots, Counters, NoneOverdue;
    CloseKeeps(db, code, b);
    OthersNotOverdue(db, b);
    CloseNoneOverdue(db, code, b);
  }

  lemma OthersNotOverdue(db: Db, b: BatchId)
    requires NoneOverdue(db.sessions, db.people, db.batches, db.batchItems, db.responses)
    ensures forall c | c in db.batches && c != b && db.batches[c].open && db.batches[c].session in db.sessions
                       && db.sessions[db.batches[c].session].status == Voting ::
              !AllAnswered(db.responses, ItemsOf(db.batchItems, c), Roster(db.people, db.batches[c].session))
  {
  }

  lemma CloseByHandKeeps(db: Db, code: Code, account: Option<Account>, now: int)
    requires Inv(db)
    ensures Inv(CloseByHand(db, code, account, now).0)
  {
    hide Refs, Targets, Rosters, Rounds, Newest, Sizes, Sourced;
    hide DealOrder, Reported, Tallies, Ballots, Counters, NoneOverdue;
    GateKeeps(db, code, account, now);
    if HostGate(db, code, account, now).Admitted? && OpenBatch(db.batches, code).Some? {
      OpenMeansVoting(db, code);
      CloseRoundKeeps(db, code, OpenBatch(db.batches, code).value);
      TouchKeeps(CloseRound(db, code, OpenBatch(db.batches, code).value), code, now);
    }
  }

  lemma DecideKeeps(db: Db, code: Code, account: Option<Account>, b: BatchId, x: BatchItemId, keep: bool, now: int)
    requires Inv(db)
    ensures Inv(Decide(db, code, account, b, x, keep, now).0)
  {
    hide Refs, Targets, Rosters, Rounds, Newest, Sizes, Sourced;
    hide DealOrder, Reported, Tallies, Ballots, Counters, NoneOverdue;
    GateKeeps(db, code, account, now);
    if HostGate(db, code, account, now).Admitted? && b in db.batches && x in db.batchItems
       && db.batchItems[x].batch == b
       && !db.batches[b].open && db.batchItems[x].outcome.None? {
      DecisionKeeps(db, x, keep);
      TouchKeeps(WriteDecision(db, x, keep), code, now);
    }
  }

  lemma UndecidedIsPending(db: Db, code: Code)
    ensures Pending(db.batches, db.batchItems, Undecided(db.batchItems, db.batches, code))
  {
  }

  lemma NextBatchKeeps(db: Db, code: Code, account: Option<Account>, now: int)
    requires Inv(db)
    ensures Inv(NextBatch(db, code, account, now).0)
  {
    hide Refs, Targets, Rosters, Rounds, Newest, Sizes, Sourced;
    hide DealOrder, Reported, Tallies, Ballots, Counters, NoneOverdue;
    GateKeeps(db, code, account, now);
    if HostGate(db, code, account, now).Admitted? && db.sessions[code].status == Voting
       && OpenBatch(db.batches, code).None? {
      var ids := Undecided(db.batchItems, db.batches, code);
      UndecidedIsPending(db, code);
      PassKeeps(db, ids);
      AssemblyFinds(db, code, TRACK_ORDER);
      var (track, chosen) := NextBatchAssembly(db, code);
      if track.Some? {
        NoCollectionNothingDealt(db, code, track.value);
        AssembledIsDealable(db, code, track.value, Offered(db.batchItems, db.batches, code), chosen);
        PassedSame(db, ids, code, track.value, chosen);
        DealKeeps(PassAll(db, ids), code, track.value, chosen);
        SameStatusSame(OpenRound(PassAll(db, ids), code, track.value, chosen), code);
        TouchKeeps(OpenRound(PassAll(db, ids), code, track.value, chosen), code, now);
      }
    }
  }

  // ------------------------------------------------------------ what writes leave alone

  lemma RoundShows(db: Db, code: Code, track: Track, chosen: seq<ItemId>)
    ensures var after := OpenRound(db, code, track, chosen);
            && after.sessions == db.sessions && after.people == db.people && after.nextPerson == db.nextPerson
            && after.items == db.items && after.nextItem == db.nextItem
            && db.nextBatch in OpenBatches(after.batches, code)
  {
    hide NewOptions, NextSeq, SeqsOf;
  }

  /** What an admitted start may have done. */
  ghost predicate Started(db: Db, after: Db, code: Code, now: int)
    requires code in db.sessions
  {
    || after == db
    || after == Touch(SetStatus(db, code, Voting), code, now)
    || exists track, chosen :: after == Touch(Dealt(db, code, track, chosen), code, now)
  }

  lemma StartShapes(db: Db, code: Code, now: int)
    requires code in db.sessions
    ensures Started(db, StartAdmitted(db, code, now).0, code, now)
  {
    hide PoolOf, AssembleBatch, FirstTrack, OpenRound, OpenBatch, ApplyTransition, Touch;
    TransitionToVoting(db.sessions[code].status);
    var track := FirstTrack(db.sessions[code].targets);
    if track.Some? {
      var chosen := AssembleBatch(PoolOf(db.items, db.nextItem, db.sessions[code], track.value), {});
      RoundShows(db, code, track.value, chosen);
      hide SetStatus;
      assert Dealt(db, code, track.value, chosen) == SetStatus(OpenRound(db, code, track.value, chosen), code, Voting);
    }
  }

  lemma TransitionToVoting(current: Status)
    ensures ApplyTransition(current, Voting).Ok? ==> ApplyTransition(current, Voting).value == Voting
  {
  }

  lemma DealtSpares(db: Db, code: Code, track: Track, chosen: seq<ItemId>)
    requires code in db.sessions
    ensures var after := Dealt(db, code, track, chosen);
            && after.people == db.people && after.nextPerson == db.nextPerson
            && after.items == db.items && after.nextItem == db.nextItem
            && after.sessions == db.sessions[code := db.sessions[code].(status := Voting)]
            && BatchesOf(after.batches, code) <= BatchesOf(db.batches, code) + {db.nextBatch}
            && forall other | other != code :: BatchesOf(after.batches, other) <= BatchesOf(db.batches, other)
  {
    hide NewOptions, NextSeq, SeqsOf;
  }

  lemma CloseSpares(db: Db, code: Code, b: BatchId)
    requires b in db.batches
    ensures var after := CloseRound(db, code, b);
            after.sessions == db.sessions && after.people == db.people && after.nextPerson == db.nextPerson
  {
    hide ItemsOf, Roster, TallyTable, CountTable, ShutTable;
  }

  lemma CloseKeepsTime(db: Db, code: Code, b: BatchId)
    requires b in db.batches
    ensures CloseRound(db, code, b).activity == db.activity
  {
    hide ItemsOf, Roster, TallyTable, CountTable, ShutTable;
  }

  lemma ExpirySpares(db: Db, code: Code, now: int)
    requires code in db.sessions
    ensures var after := ExpireIfStale(db, code, now);
            && code in after.sessions && after.batches == db.batches && after.batchItems == db.batchItems
            && after.items == db.items && after.nextItem == db.nextItem
  {
  }

  lemma PassSpares(db: Db, ids: set<BatchItemId>)
    ensures var after := PassAll(db, ids);
            after == db.(batchItems := after.batchItems) && (Refs(db) ==> Refs(after))
  {
  }

  lemma SameStatusSame(db: Db, code: Code)
    requires code in db.sessions && db.sessions[code].status == Voting
    ensures SetStatus(db, code, Voting) == db
  {
    assert db.sessions[code := db.sessions[code].(status := Voting)] == db.sessions;
  }

  /** An ad hoc session has no pool, so it never gets a batch. */
  lemma NoCollectionNothingDealt(db: Db, code: Code, track: Track)
    requires Refs(db) && code in db.sessions
    requires AssembleBatch(PoolOf(db.items, db.nextItem, db.sessions[code], track),
                           Offered(db.batchItems, db.batches, code)) != []
    ensures db.sessions[code].collection.Some?
  {
    PoolIsEligible(db.items, db.nextItem, db.sessions[code], track);
    AssembleBatchDeals(PoolOf(db.items, db.nextItem, db.sessions[code], track),
                       Offered(db.batchItems, db.batches, code), BATCH_SIZE);
    var chosen :=
      AssembleBatch(PoolOf(db.items, db.nextItem, db.sessions[code], track), Offered(db.batchItems, db.batches, code));
    assert chosen[0] in chosen;
  }

  /** With no open batch a session has no vote rows. */
  lemma NoOpenNoBallots(db: Db, code: Code)
    requires Ballots(db.sessions, db.people, db.batches, db.batchItems, db.responses)
    requires OpenBatches(db.batches, code) == {}
    ensures forall k | k in db.responses :: k.voter in db.people && db.people[k.voter].session != code
  {
    forall k | k in db.responses ensures db.people[k.voter].session != code {
      assert db.batchItems[k.item].batch !in OpenBatches(db.batches, code);
    }
  }

  lemma ClosedNoneOpen(db: Db, code: Code, b: BatchId)
    requires Newest(db.batches) && b in OpenBatches(db.batches, code)
    ensures OpenBatches(CloseRound(db, code, b).batches, code) == {}
  {
    var after := CloseRound(db, code, b);
    forall c | c in after.batches && after.batches[c].session == code ensures !after.batches[c].open {
    }
  }

  lemma FinishKeeps(db: Db, code: Code, account: Option<Account>, now: int)
    requires Inv(db)
    ensures Inv(FinishSession(db, code, account, now).0)
  {
    hide Refs, Targets, Rosters, Rounds, Newest, Sizes, Sourced;
    hide DealOrder, Reported, Tallies, Ballots, Counters, NoneOverdue;
    GateKeeps(db, code, account, now);
    if HostGate(db, code, account, now).Admitted? {
      var open := OpenBatch(db.batches, code);
      var ids := Undecided(db.batchItems, db.batches, code);
      UndecidedIsPending(db, code);
      var closed := if open.Some? then Touch(CloseRound(db, code, open.value), code, now) else db;
      if open.Some? {
        OpenMeansVoting(db, code);
        CloseRoundKeeps(db, code, open.value);
        TouchKeeps(CloseRound(db, code, open.value), code, now);
        ClosedNoneOpen(db, code, open.value);
        StillPending(db, code, open.value, ids);
      }
      PassKeeps(closed, ids);
      NoOpenNoBallots(PassAll(closed, ids), code);
      EndKeeps(PassAll(closed, ids), code, Complete);
    }
  }

  /** Closing the open batch leaves the options of earlier batches as they were. */
  lemma StillPending(db: Db, code: Code, b: BatchId, ids: set<BatchItemId>)
    requires b in db.batches && db.batches[b].open && Pending(db.batches, db.batchItems, ids)
    ensures var after := CloseRound(db, code, b);
            Pending(after.batches, after.batchItems, ids)
  {
  }

  lemma RemoveKeeps(db: Db, code: Code, account: Option<Account>, p: PersonId, now: int)
    requires Inv(db)
    ensures Inv(RemoveParticipant(db, code, account, p, now).0)
  {
    hide Refs, Targets, Rosters, Rounds, Newest, Sizes, Sourced;
    hide DealOrder, Reported, Tallies, Ballots, Counters, NoneOverdue;
    GateKeeps(db, code, account, now);
    if HostGate(db, code, account, now).Admitted? && db.sessions[code].status == Lobby
       && p in Roster(db.people, code) && db.people[p].account != Some(db.sessions[code].host) {
      UnseatKeeps(db, p);
      TouchKeeps(db.(people := db.people - {p}), code, now);
    }
  }

  /** No request breaks the invariant. */
  lemma StepKeeps(db: Db, a: Action)
    requires Inv(db)
    ensures Inv(Step(db, a).0)
  {
    hide Refs, Targets, Rosters, Rounds, Newest, Sizes, Sourced;
    hide DealOrder, Reported, Tallies, Ballots, Counters, NoneOverdue;
    match a
    case AddItem(_, _, _) => LibraryKeeps(db, a);
    case EditItem(_, _, _) => LibraryKeeps(db, a);
    case ArchiveItem(_, _) => LibraryKeeps(db, a);
    case Create(host, name, coll, br, lu, di, pi, draws, rolls, now) =>
      CreateKeeps(db, host, name, coll, br, lu, di, pi, draws, rolls, now);
    case Join(code, account, name, now) => JoinKeeps(db, code, account, name, now);
    case Start(code, account, now) => StartVotingKeeps(db, code, account, now);
    case CastVote(code, cookie, account, x, choice, now) => CastVoteKeeps(db, code, cookie, account, x, choice, now);
    case Close(code, account, now) => CloseByHandKeeps(db, code, account, now);
    case KeepOrPass(code, account, b, x, keep, now) => DecideKeeps(db, code, account, b, x, keep, now);
    case Next(code, account, now) => NextBatchKeeps(db, code, account, now);
    case Finish(code, account, now) => FinishKeeps(db, code, account, now);
    case Remove(code, account, p, now) => RemoveKeeps(db, code, account, p, now);
    case View(code, now) => if code in db.sessions { ExpiryKeeps(db, code, now); }
  }

  lemma EmptyIsFine()
    ensures Inv(EMPTY_DB)
  {
  }

  lemma {:induction false} RunKeeps(db: Db, actions: seq<Action>)
    requires Inv(db)
    ensures Inv(Run(db, actions))
    decreases |actions|
  {
    hide Refs, Targets, Rosters, Rounds, Newest, Sizes, Sourced;
    hide DealOrder, Reported, Tallies, Ballots, Counters, NoneOverdue;
    if actions != [] {
      RunKeeps(db, actions[..|actions| - 1]);
      StepKeeps(Run(db, actions[..|actions| - 1]), actions[|actions| - 1]);
    }
  }

  /** A database some run of requests leads to, starting from nothing. */
  ghost function Reached(actions: seq<Action>): Db {
    Run(EMPTY_DB, actions)
  }

  lemma RunNothing(db: Db)
    ensures Run(db, []) == db
  {
  }

  lemma RunUnfolds(db: Db, actions: seq<Action>)
    requires actions != []
    ensures Run(db, actions) == Step(Run(db, actions[..|actions| - 1]), actions[|actions| - 1]).0
  {
    hide Step;
  }

  lemma StartsEmpty()
    ensures Reached([]) == EMPTY_DB
  {
  }

  /** Every reachable database satisfies the invariant. */
  lemma ReachedKeeps(actions: seq<Action>)
    ensures Inv(Reached(actions))
  {
    hide Refs, Targets, Rosters, Rounds, Newest, Sizes, Sourced;
    hide DealOrder, Reported, Tallies, Ballots, Counters, NoneOverdue;
    EmptyIsFine();
    RunKeeps(EMPTY_DB, actions);
  }
}
