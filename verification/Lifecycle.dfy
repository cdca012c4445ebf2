/** How a session's status and roster move: exactly which request changes them,
    and that the roster stands still from start to finish of the voting. */
module Lifecycle {
  import opened Prelude
  import opened SessionLogic
  import opened Tables
  import opened Pool
  import opened Handlers
  import opened Invariants
  import opened Preservation
  import opened Runs
  import opened History
  import opened Endings

  function StatusOf(db: Db, code: Code): Option<Status> {
    if code in db.sessions then Some(db.sessions[code].status) else None
  }

  predicate IsHost(db: Db, code: Code, account: Option<Account>) {
    code in db.sessions && account == Some(db.sessions[code].host)
  }

  /** The requests only a host may send. */
  predicate HostOnly(a: Action) {
    a.Start? || a.Close? || a.KeepOrPass? || a.Next? || a.Finish? || a.Remove?
  }

  /** From anybody but the host such a request does no more than a look would,
      and is told why. */
  lemma OnlyTheHostActs(db: Db, a: Action)
    requires HostOnly(a) && !IsHost(db, a.code, a.account)
    ensures Step(db, a).0 == Look(db, a.code, a.now).0
    ensures Step(db, a).1
            == if a.code !in db.sessions then NotFound else if a.account.None? then Unauthorized else Forbidden
  {
  }

  // ------------------------------------------------------------ status

  /** Why session `code` may have gone from one status to another. */
  ghost predicate Explained(db: Db, a: Action, code: Code, from: Status, to: Status) {
    match to
    case Lobby => false
    case Voting => from == Lobby && a.Start? && a.code == code && IsHost(db, code, a.account)
    case Complete => Live(from) && a.Finish? && a.code == code && IsHost(db, code, a.account)
    case Expired => Live(from) && Addresses(a, code) && code in db.sessions && Stale(db, code, a.now)
  }

  ghost predicate Moves(db: Db, after: Db, a: Action, code: Code) {
    && code in db.sessions && code in after.sessions
    && after.sessions[code].host == db.sessions[code].host
    && var s, t := db.sessions[code].status, after.sessions[code].status;
       && (s != t ==> Explained(db, a, code, s, t))
       && (Addresses(a, code) && Stale(db, code, a.now) ==> t == Expired)
  }

  lemma ExpirySessions(db: Db, code: Code, now: int)
    requires code in db.sessions
    ensures ExpireIfStale(db, code, now).sessions
            == if Stale(db, code, now) then db.sessions[code := db.sessions[code].(status := Expired)] else db.sessions
  {
  }

  lemma GateMoves(db: Db, a: Action, code: Code)
    requires HostOnly(a) && code in db.sessions
    ensures Moves(db, HostGate(db, a.code, a.account, a.now).db, a, code)
    ensures HostGate(db, a.code, a.account, a.now).Admitted? ==>
            IsHost(db, a.code, a.account) && !Stale(db, a.code, a.now)
  {
    if a.code !in db.sessions {
      SameSessionsMove(db, db, a, code);
    } else {
      ExpirySessions(db, a.code, a.now);
      ExpiryMoves(db, a, code, a.code);
      hide ExpireIfStale, Stale, Moves;
    }
  }

  lemma SameSessionsMove(db: Db, after: Db, a: Action, code: Code)
    requires code in db.sessions && after.sessions == db.sessions && (Addresses(a, code) ==> !Stale(db, code, a.now))
    ensures Moves(db, after, a, code)
  {
  }

  lemma StartMoves(db: Db, a: Action, code: Code)
    requires a.Start? && code in db.sessions
    ensures Moves(db, Step(db, a).0, a, code)
  {
    hide HostGate, StartAdmitted, Dealt, Stale, Moves;
    GateMoves(db, a, code);
    if HostGate(db, a.code, a.account, a.now).Admitted? {
      AdmittedIsLive(db, a.code, a.account, a.now);
      StartShapes(db, a.code, a.now);
      var after := StartAdmitted(db, a.code, a.now).0;
      if track, chosen :| after == Touch(Dealt(db, a.code, track, chosen), a.code, a.now) {
        DealtSpares(db, a.code, track, chosen);
      }
      VotingMoves(db, after, a, code);
    }
  }

  lemma VotingMoves(db: Db, after: Db, a: Action, code: Code)
    requires a.Start? && code in db.sessions && IsHost(db, a.code, a.account) && !Stale(db, a.code, a.now)
    requires Live(db.sessions[a.code].status)
    requires after.sessions == db.sessions
             || after.sessions == db.sessions[a.code := db.sessions[a.code].(status := Voting)]
    ensures Moves(db, after, a, code)
  {
    hide Stale;
  }

  lemma FinishMoves(db: Db, a: Action, code: Code)
    requires a.Finish? && code in db.sessions
    ensures Moves(db, Step(db, a).0, a, code)
  {
    hide HostGate, Stale, CloseRound, Undecided, OpenBatch;
    GateMoves(db, a, code);
    if HostGate(db, a.code, a.account, a.now).Admitted? && OpenBatch(db.batches, a.code).Some? {
      CloseSpares(db, a.code, OpenBatch(db.batches, a.code).value);
    }
  }

  lemma HostMoves(db: Db, a: Action, code: Code)
    requires (a.Close? || a.KeepOrPass? || a.Next? || a.Remove?) && code in db.sessions
    ensures Moves(db, Step(db, a).0, a, code)
  {
    hide HostGate, Stale, CloseRound, Undecided, OpenBatch, NextBatchAssembly;
    hide NewOptions, NextSeq, SeqsOf, WriteDecision, PassAll;
    GateMoves(db, a, code);
    if HostGate(db, a.code, a.account, a.now).Admitted? {
      match a
      case Close(_, _, _) =>
        if OpenBatch(db.batches, a.code).Some? {
          CloseSpares(db, a.code, OpenBatch(db.batches, a.code).value);
        }
      case KeepOrPass(_, _, _, x, keep, _) => if x in db.batchItems { DecisionSessions(db, x, keep); }
      case Next(_, _, _) => PassSpares(db, Undecided(db.batchItems, db.batches, a.code));
      case Remove(_, _, _, _) =>
    }
  }

  lemma DecisionSessions(db: Db, x: BatchItemId, keep: bool)
    requires x in db.batchItems
    ensures WriteDecision(db, x, keep).sessions == db.sessions && WriteDecision(db, x, keep).people == db.people
    ensures WriteDecision(db, x, keep).nextPerson == db.nextPerson
  {
  }

  lemma ExpiryMoves(db: Db, a: Action, code: Code, other: Code)
    requires Addresses(a, other) && other in db.sessions && code in db.sessions
    ensures Moves(db, ExpireIfStale(db, other, a.now), a, code)
  {
    ExpirySessions(db, other, a.now);
    hide ExpireIfStale;
  }

  lemma GuestMoves(db: Db, a: Action, code: Code)
    requires (a.Join? || a.CastVote? || a.View?) && code in db.sessions
    ensures Moves(db, Step(db, a).0, a, code)
  {
    hide ExpireIfStale, Stale, CloseRound, EverybodyFinished, ViewerParticipant, ExistingRow, OpenBatch;
    if a.code in db.sessions {
      ExpiryMoves(db, a, code, a.code);
      if a.CastVote? {
        var current := ExpireIfStale(db, a.code, a.now);
        var open := OpenBatch(current.batches, a.code);
        var viewer := ViewerParticipant(current.people, a.code, a.cookie, a.account);
        if open.Some? && viewer.Some? {
          var c := if a.choice == "yes" then Yes else No;
          CloseSpares(current.(responses := current.responses[Ballot(a.option, viewer.value) := c]),
                      a.code, open.value);
        }
      }
    }
  }

  lemma OtherMoves(db: Db, a: Action, code: Code)
    requires (a.AddItem? || a.EditItem? || a.ArchiveItem? || a.Create?) && code in db.sessions
    ensures Moves(db, Step(db, a).0, a, code)
  {
    hide Stale, ChosenTargets;
  }

  /** Every status change of every session is the work of one kind of request,
      sent by its host or made due by a day of silence; and a stale session
      expires on the first request that names it. */
  lemma StatusChanges(db: Db, a: Action, code: Code)
    requires code in db.sessions
    ensures Moves(db, Step(db, a).0, a, code)
    ensures ByTheClock(db, Step(db, a).0, a, code)
  {
    hide Moves, JoinSession, StartVoting, Vote, CloseByHand, Decide;
    hide NextBatch, FinishSession, RemoveParticipant, CreateSession, EditLibrary, ExpireIfStale, ByTheClock;
    match a {
      case AddItem(_, _, _) => OtherMoves(db, a, code);
      case EditItem(_, _, _) => OtherMoves(db, a, code);
      case ArchiveItem(_, _) => OtherMoves(db, a, code);
      case Create(_, _, _, _, _, _, _, _, _, _) => OtherMoves(db, a, code);
      case Join(_, _, _, _) => GuestMoves(db, a, code);
      case Start(_, _, _) => StartMoves(db, a, code);
      case CastVote(_, _, _, _, _, _) => GuestMoves(db, a, code);
      case Close(_, _, _) => HostMoves(db, a, code);
      case KeepOrPass(_, _, _, _, _, _) => HostMoves(db, a, code);
      case Next(_, _, _) => HostMoves(db, a, code);
      case Finish(_, _, _) => FinishMoves(db, a, code);
      case Remove(_, _, _, _) => HostMoves(db, a, code);
      case View(_, _) => GuestMoves(db, a, code);
    }
    hide Step;
    MovesByTheClock(db, Step(db, a).0, a, code);
  }

  /** With the day spelled out: a session expires only by a request that names it
      when its last activity is more than 86400 seconds past, and then it does. */
  ghost predicate ByTheClock(db: Db, after: Db, a: Action, code: Code) {
    && code in db.sessions && code in after.sessions
    && (db.sessions[code].status != Expired && after.sessions[code].status == Expired ==>
          Addresses(a, code) && code in db.activity && db.activity[code] < a.now - 86400)
    && (Addresses(a, code) && (db.sessions[code].status == Lobby || db.sessions[code].status == Voting)
        && code in db.activity && db.activity[code] < a.now - 86400 ==>
          after.sessions[code].status == Expired)
  }

  lemma MovesByTheClock(db: Db, after: Db, a: Action, code: Code)
    requires Moves(db, after, a, code)
    ensures ByTheClock(db, after, a, code)
  {
  }

  // ------------------------------------------------------------ expiry

  /** Expiry drops the session's people and the votes of its open batch, and
      leaves every batch, option and item counter as it was. */
  lemma ExpiryLeavesReports(db: Db, code: Code, now: int)
    requires code in db.sessions && Stale(db, code, now)
    ensures var after := Look(db, code, now).0;
            && after.batches == db.batches && after.batchItems == db.batchItems && after.items == db.items
            && Roster(after.people, code) == {}
            && (forall p | p in db.people && db.people[p].session != code ::
                p in after.people && after.people[p] == db.people[p])
            && (forall k :: k in after.responses <==>
                  k in db.responses
                    && !(InSession(db.batchItems, db.batches, code, k.item)
                         && db.batches[db.batchItems[k.item].batch].open))
  {
  }

  // ------------------------------------------------------------ roster

  /** The rows of one session's participants. */
  function Seats(people: map<PersonId, Person>, code: Code): map<PersonId, Person> {
    map p | p in people && people[p].session == code :: people[p]
  }

  /** How one request may change who sits in a live session that stays live. */
  ghost predicate Reseated(db: Db, after: Db, a: Action, code: Code) {
    var before, now := Seats(db.people, code), Seats(after.people, code);
    || now == before
    || (code in db.sessions && db.sessions[code].status == Lobby
        && ((a.Join? && a.code == code && now == before[db.nextPerson := Person(code, a.account, a.displayName)])
            || (a.Remove? && a.code == code && IsHost(db, code, a.account) && a.person in before
                && before[a.person].account != a.account && now == before - {a.person})))
  }

  lemma SamePeople(db: Db, after: Db, a: Action, code: Code)
    requires after.people == db.people
    ensures Reseated(db, after, a, code)
  {
  }

  lemma DropElsewhere(db: Db, after: Db, a: Action, code: Code, other: Code)
    requires after.people == DropRoster(db, other).people && other != code
    ensures Reseated(db, after, a, code)
  {
    assert Seats(after.people, code) == Seats(db.people, code);
  }

  lemma ExpirySeats(db: Db, a: Action, other: Code, now: int, code: Code)
    requires other in db.sessions && code in db.sessions && Live(ExpireIfStale(db, other, now).sessions[code].status)
    ensures Reseated(db, ExpireIfStale(db, other, now), a, code)
    ensures other == code ==> ExpireIfStale(db, other, now) == db || !Live(db.sessions[code].status)
  {
    if Stale(db, other, now) {
      DropElsewhere(db, ExpireIfStale(db, other, now), a, code, other);
    }
  }

  lemma GateSeats(db: Db, a: Action, other: Code, account: Option<Account>, now: int, code: Code)
    requires code in db.sessions && Live(HostGate(db, other, account, now).db.sessions[code].status)
    ensures Reseated(db, HostGate(db, other, account, now).db, a, code)
  {
    hide Reseated, ExpireIfStale;
    SamePeople(db, db, a, code);
    if other in db.sessions {
      ExpirySeats(db, a, other, now, code);
    }
  }

  lemma SeatsWithout(people: map<PersonId, Person>, p: PersonId, code: Code)
    ensures Seats(people - {p}, code) == Seats(people, code) - {p}
    ensures p in people && people[p].session != code ==> Seats(people - {p}, code) == Seats(people, code)
  {
  }

  lemma SeatsWith(people: map<PersonId, Person>, p: PersonId, row: Person, code: Code)
    requires p !in people
    ensures Seats(people[p := row], code) == if row.session == code then Seats(people, code)[p := row]
            else Seats(people, code)
  {
  }

  lemma RemoveSeats(db: Db, a: Action, code: Code)
    requires a.Remove? && code in db.sessions && code in Step(db, a).0.sessions
    requires Live(Step(db, a).0.sessions[code].status)
    ensures Reseated(db, Step(db, a).0, a, code)
  {
    hide HostGate;
    var gate := HostGate(db, a.code, a.account, a.now);
    if gate.Turned? {
      hide Reseated;
      GateSeats(db, a, a.code, a.account, a.now, code);
    } else {
      GateMoves(db, a, a.code);
      SeatsWithout(db.people, a.person, code);
      InSeats(db.people, a.person, code);
      hide Seats, Moves, Stale;
    }
  }

  lemma InSeats(people: map<PersonId, Person>, p: PersonId, code: Code)
    ensures p in Seats(people, code) <==> p in people && people[p].session == code
    ensures p in Seats(people, code) ==> Seats(people, code)[p] == people[p]
  {
  }

  lemma SameSeats(db: Db, mid: Db, after: Db, a: Action, code: Code)
    requires Reseated(db, mid, a, code) && after.people == mid.people
    ensures Reseated(db, after, a, code)
  {
  }

  lemma JoinSeats(db: Db, a: Action, code: Code)
    requires Refs(db) && a.Join? && code in db.sessions && code in Step(db, a).0.sessions
    requires Live(Step(db, a).0.sessions[code].status)
    ensures Reseated(db, Step(db, a).0, a, code)
  {
    hide ExpireIfStale, ExistingRow;
    SamePeople(db, db, a, code);
    if a.code in db.sessions {
      var current := ExpireIfStale(db, a.code, a.now);
      ExpirySeats(db, a, a.code, a.now, code);
      ExpirySessions(db, a.code, a.now);
      if Live(current.sessions[a.code].status) {
        ExpirySame(db, a.code, a.now);
        SeatsWith(db.people, db.nextPerson, Person(a.code, a.account, a.displayName), code);
        hide Seats, Stale;
      } else {
        hide Reseated, Stale;
      }
    }
  }

  lemma ExpirySame(db: Db, code: Code, now: int)
    requires code in db.sessions && Live(ExpireIfStale(db, code, now).sessions[code].status)
    ensures ExpireIfStale(db, code, now) == db
  {
  }

  lemma HostSeats(db: Db, a: Action, code: Code)
    requires a.Start? || a.Close? || a.KeepOrPass? || a.Next?
    requires code in db.sessions && code in Step(db, a).0.sessions && Live(Step(db, a).0.sessions[code].status)
    ensures Reseated(db, Step(db, a).0, a, code)
  {
    hide HostGate, Reseated, CloseRound, Undecided, OpenBatch;
    hide NextBatchAssembly, OpenRound, WriteDecision, PassAll, StartAdmitted;
    var gate := HostGate(db, a.code, a.account, a.now);
    if gate.Turned? {
      GateSeats(db, a, a.code, a.account, a.now, code);
    } else {
      match a {
        case Start(_, _, _) => StartPeople(db, a.code, a.now);
        case Close(_, _, _) =>
          if OpenBatch(db.batches, a.code).Some? {
            CloseSpares(db, a.code, OpenBatch(db.batches, a.code).value);
          }
        case KeepOrPass(_, _, _, x, keep, _) => if x in db.batchItems { DecisionSessions(db, x, keep); }
        case Next(_, _, _) => NextPeople(db, a.code, a.account, a.now);
      }
      SamePeople(db, Step(db, a).0, a, code);
    }
  }

  lemma StartPeople(db: Db, code: Code, now: int)
    requires code in db.sessions
    ensures StartAdmitted(db, code, now).0.people == db.people
    ensures StartAdmitted(db, code, now).0.nextPerson == db.nextPerson
  {
    hide StartAdmitted, Dealt;
    StartShapes(db, code, now);
    if track, chosen :| StartAdmitted(db, code, now).0 == Touch(Dealt(db, code, track, chosen), code, now) {
      DealtSpares(db, code, track, chosen);
    }
  }

  lemma NextPeople(db: Db, code: Code, account: Option<Account>, now: int)
    requires HostGate(db, code, account, now).Admitted?
    ensures NextBatch(db, code, account, now).0.people == db.people
    ensures NextBatch(db, code, account, now).0.nextPerson == db.nextPerson
  {
    hide HostGate, NextBatchAssembly, NewOptions, NextSeq, SeqsOf, Undecided, OpenBatch;
  }

  lemma FinishSeats(db: Db, a: Action, code: Code)
    requires a.Finish? && code in db.sessions && code in Step(db, a).0.sessions
    requires Live(Step(db, a).0.sessions[code].status)
    ensures Reseated(db, Step(db, a).0, a, code)
  {
    hide HostGate, Reseated, CloseRound, Undecided, OpenBatch;
    var gate := HostGate(db, a.code, a.account, a.now);
    if gate.Turned? {
      GateSeats(db, a, a.code, a.account, a.now, code);
    } else {
      if OpenBatch(db.batches, a.code).Some? {
        CloseSpares(db, a.code, OpenBatch(db.batches, a.code).value);
      }
      DropElsewhere(db, Step(db, a).0, a, code, a.code);
    }
  }

  lemma VoteSeats(db: Db, a: Action, code: Code)
    requires a.CastVote? && code in db.sessions && code in Step(db, a).0.sessions
    requires Live(Step(db, a).0.sessions[code].status)
    ensures Reseated(db, Step(db, a).0, a, code)
  {
    hide ExpireIfStale, CloseRound, EverybodyFinished, ViewerParticipant, OpenBatch, Reseated;
    SamePeople(db, db, a, code);
    if a.code in db.sessions {
      var current := ExpireIfStale(db, a.code, a.now);
      var open := OpenBatch(current.batches, a.code);
      var viewer := ViewerParticipant(current.people, a.code, a.cookie, a.account);
      if open.Some? && viewer.Some? {
        var c := if a.choice == "yes" then Yes else No;
        CloseSpares(current.(responses := current.responses[Ballot(a.option, viewer.value) := c]),
                    a.code, open.value);
      }
      ExpirySeats(db, a, a.code, a.now, code);
      SameSeats(db, current, Step(db, a).0, a, code);
    }
  }

  lemma CreateSeats(db: Db, a: Action, code: Code)
    requires Refs(db) && a.Create? && code in db.sessions
    ensures Reseated(db, Step(db, a).0, a, code)
  {
    hide ChosenTargets, Seats;
    var made := MakeCode(db.sessions.Keys, a.draws);
    if made.Some? {
      SeatsWith(db.people, db.nextPerson, Person(made.value, Some(a.host), a.hostName), code);
    }
  }

  lemma OtherSeats(db: Db, a: Action, code: Code)
    requires Refs(db) && (a.AddItem? || a.EditItem? || a.ArchiveItem? || a.Create?) && code in db.sessions
    ensures Reseated(db, Step(db, a).0, a, code)
  {
    hide ChosenTargets, Reseated;
    if a.Create? {
      CreateSeats(db, a, code);
    } else {
      SamePeople(db, Step(db, a).0, a, code);
    }
  }

  /** While a session stays live its roster changes only in the lobby, by a join
      or by its host removing somebody else. */
  lemma RosterChanges(db: Db, a: Action, code: Code)
    requires Refs(db) && code in db.sessions
    ensures var after := Step(db, a).0;
            code in after.sessions && (Live(after.sessions[code].status) ==> Reseated(db, after, a, code))
  {
    hide Moves, Reseated, JoinSession, StartVoting, Vote, CloseByHand, Decide;
    hide NextBatch, FinishSession, RemoveParticipant, CreateSession, EditLibrary, ExpireIfStale;
    StatusChanges(db, a, code);
    StillKnown(db, Step(db, a).0, a, code);
    if Live(Step(db, a).0.sessions[code].status) {
      match a
      case AddItem(_, _, _) => OtherSeats(db, a, code);
      case EditItem(_, _, _) => OtherSeats(db, a, code);
      case ArchiveItem(_, _) => OtherSeats(db, a, code);
      case Create(_, _, _, _, _, _, _, _, _, _) => OtherSeats(db, a, code);
      case Join(_, _, _, _) => JoinSeats(db, a, code);
      case Start(_, _, _) => HostSeats(db, a, code);
      case CastVote(_, _, _, _, _, _) => VoteSeats(db, a, code);
      case Close(_, _, _) => HostSeats(db, a, code);
      case KeepOrPass(_, _, _, _, _, _) => HostSeats(db, a, code);
      case Next(_, _, _) => HostSeats(db, a, code);
      case Finish(_, _, _) => FinishSeats(db, a, code);
      case Remove(_, _, _, _) => RemoveSeats(db, a, code);
      case View(_, _) =>
        SamePeople(db, db, a, code);
        if a.code in db.sessions {
          ExpirySeats(db, a, a.code, a.now, code);
        }
    }
  }

  lemma StillKnown(db: Db, after: Db, a: Action, code: Code)
    requires Moves(db, after, a, code)
    ensures code in after.sessions
    ensures Live(after.sessions[code].status) ==> Live(db.sessions[code].status)
    ensures after.sessions[code].status == Voting && db.sessions[code].status != Voting ==>
            db.sessions[code].status == Lobby
  {
  }

  lemma VotingSeats(db: Db, after: Db, a: Action, code: Code)
    requires Reseated(db, after, a, code) && code in db.sessions && db.sessions[code].status == Voting
    ensures Seats(after.people, code) == Seats(db.people, code)
  {
  }

  /** Between two moments of one session's voting, whatever happened in between,
      the roster is the same to the row. */
  lemma {:induction false} RosterFrozen(db: Db, actions: seq<Action>, code: Code)
    requires Inv(db) && code in db.sessions && db.sessions[code].status == Voting
    ensures var after := Run(db, actions);
            code in after.sessions
            && (Live(after.sessions[code].status) ==>
                after.sessions[code].status == Voting && Seats(after.people, code) == Seats(db.people, code))
    decreases |actions|
  {
    hide Targets, Rosters, Rounds, Newest, Sizes, Sourced, DealOrder, Reported, Tallies, Ballots, Counters, NoneOverdue;
    hide Step, Moves, Reseated, Seats;
    if actions != [] {
      var init, a := actions[..|actions| - 1], actions[|actions| - 1];
      var before := Run(db, init);
      RosterFrozen(db, init, code);
      RunKeeps(db, init);
      StatusChanges(before, a, code);
      StillKnown(before, Step(before, a).0, a, code);
      NeverBack(before, Step(before, a).0, a, code);
      RosterChanges(before, a, code);
      if Live(Step(before, a).0.sessions[code].status) {
        VotingSeats(before, Step(before, a).0, a, code);
      }
    }
  }

  lemma NeverBack(db: Db, after: Db, a: Action, code: Code)
    requires Moves(db, after, a, code)
    ensures after.sessions[code].status == Lobby ==> db.sessions[code].status == Lobby
  {
  }

  // ------------------------------------------------------------ what does happen

  /** A newcomer with a name is seated in a lobby that has not gone stale, and
      the cookie is pointed at the new row. */
  lemma JoinTakesASeat(db: Db, code: Code, account: Option<Account>, name: string, now: int)
    requires Refs(db) && code in db.sessions && db.sessions[code].status == Lobby && !Stale(db, code, now)
    requires name != "" && (account.Some? ==> RowsOf(db.people, code, account.value) == {})
    ensures var (after, reply, seat) := JoinSession(db, code, account, name, now);
            && reply == SeeSession && seat == Some(db.nextPerson)
            && Seats(after.people, code) == Seats(db.people, code)[db.nextPerson := Person(code, account, name)]
            && code in after.activity && after.activity[code] == now
  {
    hide Stale;
    SeatsWith(db.people, db.nextPerson, Person(code, account, name), code);
  }

  /** The host's remove takes out exactly the named participant, and refuses
      the host's own row. */
  lemma RemoveGivesUpASeat(db: Db, code: Code, account: Option<Account>, p: PersonId, now: int)
    requires HostGate(db, code, account, now).Admitted? && db.sessions[code].status == Lobby
    requires p in Seats(db.people, code)
    ensures var (after, reply) := RemoveParticipant(db, code, account, p, now);
            if Seats(db.people, code)[p].account == account then after == db && reply == BadRequest
            else Seats(after.people, code) == Seats(db.people, code) - {p} && reply == SeeSession
  {
    GateMoves(db, Remove(code, account, p, now), code);
    hide HostGate;
    SeatsWithout(db.people, p, code);
  }

  /** The host's finish always completes the session and empties its roster. */
  lemma FinishEnds(db: Db, code: Code, account: Option<Account>, now: int)
    requires HostGate(db, code, account, now).Admitted?
    ensures var after := FinishSession(db, code, account, now).0;
            StatusOf(after, code) == Some(Complete) && Seats(after.people, code) == map[]
  {
    hide HostGate, CloseRound, Undecided, OpenBatch;
    if OpenBatch(db.batches, code).Some? {
      CloseSpares(db, code, OpenBatch(db.batches, code).value);
    }
  }

  /** The host's start leads into voting, unless a batch is due and there is
      nothing to deal; that is refused with nothing written. */
  lemma StartStarts(db: Db, code: Code, account: Option<Account>, now: int)
    requires Targets(db.sessions) && HostGate(db, code, account, now).Admitted?
    ensures var (after, reply) := StartVoting(db, code, account, now);
            if db.sessions[code].collection.Some? && OpenBatches(db.batches, code) == {} && FirstDeal(db, code) == []
            then after == db && reply == BadRequest
            else StatusOf(after, code) == Some(Voting) && reply == SeeSession
                 && (db.sessions[code].collection.Some? ==> OpenBatches(after.batches, code) != {})
  {
    hide HostGate, Targets, PoolOf, AssembleBatch, FirstTrack, OpenRound;
    GateLive(db, code, account, now);
    LiveHasFirstTrack(db, code);
    if db.sessions[code].collection.Some? && OpenBatches(db.batches, code) == {} {
      RoundShows(db, code, FirstTrack(db.sessions[code].targets).value, FirstDeal(db, code));
    }
  }

  lemma GateLive(db: Db, code: Code, account: Option<Account>, now: int)
    requires HostGate(db, code, account, now).Admitted?
    ensures code in db.sessions && Live(db.sessions[code].status)
    ensures StartVoting(db, code, account, now) == StartAdmitted(db, code, now)
  {
    hide StartAdmitted;
  }

  /** A vote's answers: an option that is not the session's is not found, a
      choice other than yes and no on the open batch is a bad request, and every
      other vote goes to the session page. */
  lemma VoteAnswers(db: Db, code: Code, cookie: Option<PersonId>, account: Option<Account>, x: BatchItemId,
                    choice: string, now: int)
    requires Newest(db.batches) && code in db.sessions
    ensures var reply := Vote(db, code, cookie, account, x, choice, now).1;
            var current := ExpireIfStale(db, code, now);
            var heard := && Live(current.sessions[code].status) && OpenBatches(db.batches, code) != {}
                         && ViewerParticipant(current.people, code, cookie, account).Some?;
            && (reply == NotFound <==> heard && !InSession(db.batchItems, db.batches, code, x)
                                       && (x in db.batchItems ==>
                                           db.batchItems[x].batch !in OpenBatches(db.batches, code)))
            && (reply == BadRequest <==> heard && choice != "yes" && choice != "no"
                                         && x in db.batchItems
                                            && db.batchItems[x].batch in OpenBatches(db.batches, code))
            && (reply == NotFound || reply == BadRequest || reply == SeeSession)
  {
    ExpirySpares(db, code, now);
    hide ExpireIfStale, ViewerParticipant, RecordVote;
    if b :| b in OpenBatches(db.batches, code) {
      OneOpenBatch(db, code, b);
    }
  }

  // ------------------------------------------------------------ over runs

  lemma SeatStays(db: Db, after: Db, a: Action, code: Code, p: PersonId)
    requires Refs(db) && Reseated(db, after, a, code) && p in Seats(db.people, code)
    requires !(a.Remove? && a.code == code && a.person == p)
    ensures p in Seats(after.people, code) && Seats(after.people, code)[p] == Seats(db.people, code)[p]
  {
    InSeats(db.people, p, code);
    hide Seats;
  }

  /** A seat taken is kept, with its row, through any run of a session's life;
      only a removal that names it, or the session's end, gives it up. */
  lemma {:induction false} SeatKept(db: Db, actions: seq<Action>, code: Code, p: PersonId)
    requires Inv(db) && code in db.sessions && p in Seats(db.people, code)
    requires forall n | 0 <= n < |actions| :: !(actions[n].Remove? && actions[n].code == code && actions[n].person == p)
    ensures var after := Run(db, actions);
            code in after.sessions
            && (Live(after.sessions[code].status) ==>
                  p in Seats(after.people, code) && Seats(after.people, code)[p] == Seats(db.people, code)[p])
    decreases |actions|
  {
    hide Targets, Rosters, Rounds, Newest, Sizes, Sourced, DealOrder, Reported, Tallies, Ballots, Counters, NoneOverdue;
    hide Step, Moves, Reseated, Seats;
    if actions != [] {
      var init, a := actions[..|actions| - 1], actions[|actions| - 1];
      var before := Run(db, init);
      SeatKept(db, init, code, p);
      RunKeeps(db, init);
      StatusChanges(before, a, code);
      StillKnown(before, Step(before, a).0, a, code);
      RosterChanges(before, a, code);
      if Live(Step(before, a).0.sessions[code].status) {
        SeatStays(before, Step(before, a).0, a, code, p);
      }
    }
  }

  /** A newcomer who joins a lobby under a name is seated with a new row, and
      keeps it until a removal names it or the session ends. */
  lemma JoinedForLife(before: seq<Action>, code: Code, account: Option<Account>, name: string, now: int,
                      actions: seq<Action>)
    ensures var db := Reached(before);
            && code in db.sessions && db.sessions[code].status == Lobby && !Stale(db, code, now)
            && name != "" && (account.Some? ==> RowsOf(db.people, code, account.value) == {})
            && (forall n | 0 <= n < |actions| ::
                  !(actions[n].Remove? && actions[n].code == code && actions[n].person == db.nextPerson)) ==>
            var (after, reply, seat) := JoinSession(db, code, account, name, now);
            var later := Run(after, actions);
            && reply == SeeSession && seat == Some(db.nextPerson)
            && code in later.sessions
            && (Live(later.sessions[code].status) ==>
                  db.nextPerson in Seats(later.people, code)
                    && Seats(later.people, code)[db.nextPerson] == Person(code, account, name))
  {
    hide Targets, Rosters, Rounds, Newest, Sizes, Sourced, DealOrder, Reported, Tallies, Ballots, Counters, NoneOverdue;
    hide Run, Seats, Stale, JoinSession, RowsOf, Moves;
    var db := Reached(before);
    ReachedKeeps(before);
    if && code in db.sessions && db.sessions[code].status == Lobby && !Stale(db, code, now)
       && name != "" && (account.Some? ==> RowsOf(db.people, code, account.value) == {})
       && (forall n | 0 <= n < |actions| ::
             !(actions[n].Remove? && actions[n].code == code && actions[n].person == db.nextPerson))
    {
      JoinTakesASeat(db, code, account, name, now);
      var join := Join(code, account, name, now);
      StepKeeps(db, join);
      StatusChanges(db, join, code);
      StillKnown(db, Step(db, join).0, join, code);
      SeatKept(Step(db, join).0, actions, code, db.nextPerson);
    }
  }

  /** A host's finish is final: the session is complete from then on, with nobody
      seated, whatever requests follow. */
  lemma FinishIsForGood(before: seq<Action>, code: Code, account: Option<Account>, now: int, actions: seq<Action>)
    ensures var db := Reached(before);
            HostGate(db, code, account, now).Admitted? ==>
            var after := Run(Step(db, Finish(code, account, now)).0, actions);
            StatusOf(after, code) == Some(Complete) && Seats(after.people, code) == map[]
  {
    hide Targets, Rounds, Newest, Sizes, Sourced, DealOrder, Reported, Tallies, Ballots, Counters, NoneOverdue;
    hide Refs, Rosters, HostGate, FinishSession, Run, Seats, RoundsRecord, OptionsRecord;
    var db := Reached(before);
    ReachedKeeps(before);
    if HostGate(db, code, account, now).Admitted? {
      FinishEnds(db, code, account, now);
      var ended := Step(db, Finish(code, account, now)).0;
      StepKeeps(db, Finish(code, account, now));
      hide Step;
      RunKeeps(ended, actions);
      EndedForGood(ended, actions, code);
      EndedSeatsNobody(Run(ended, actions), code);
    }
  }

  lemma EndedSeatsNobody(db: Db, code: Code)
    requires Rosters(db.sessions, db.people) && Over(db, code)
    ensures Seats(db.people, code) == map[]
  {
    assert forall p | p in db.people :: db.people[p].session != code;
  }
}
