/** Vote privacy as non-interference: two databases that differ at most in who
    voted which way look the same to everybody, and keep doing so through whole
    runs of requests in which even the votes cast may differ, as long as the yes
    totals published at each close agree. */
module Privacy {
  import opened Prelude
  import opened SessionLogic
  import opened Tables
  import opened Pool
  import opened Handlers
  import opened Invariants
  import opened Preservation
  import opened Runs
  import opened Views

  /** The same people answered the same options; what they said may differ. */
  ghost predicate Veiled(a: Db, b: Db) {
    a == b.(responses := a.responses) && a.responses.Keys == b.responses.Keys
  }

  ghost predicate SameTotals(a: map<Ballot, Choice>, b: map<Ballot, Choice>) {
    forall x :: |YesVoters(a, x)| == |YesVoters(b, x)|
  }

  /** Veiled, and with equal yes totals as well if `totals` is set. */
  ghost predicate Related(a: Db, b: Db, totals: bool) {
    Veiled(a, b) && (totals ==> SameTotals(a.responses, b.responses))
  }

  /** Two databases that differ at most in who cast which choice, with equal yes
      totals per option. */
  ghost predicate Alike(a: Db, b: Db) {
    Related(a, b, true)
  }

  // ------------------------------------------------------------ closing

  ghost predicate SameCount(a: Db, b: Db, round: BatchId) {
    forall x | x in ItemsOf(a.batchItems, round) :: |YesVoters(a.responses, x)| == |YesVoters(b.responses, x)|
  }

  /** Closing looks at totals only: even databases in which different people
      answered close to the very same state, once the yes totals agree. */
  lemma CloseSeesTotals(a: Db, b: Db, code: Code, round: BatchId)
    requires round in a.batches && a.batches[round].open && a == b.(responses := a.responses)
    requires SameCount(a, b, round)
    requires forall k: Ballot | k.item !in ItemsOf(a.batchItems, round) ::
               (k in a.responses <==> k in b.responses) && (k in a.responses ==> a.responses[k] == b.responses[k])
    ensures CloseRound(a, code, round) == CloseRound(b, code, round)
  {
    var options := ItemsOf(a.batchItems, round);
    SameTally(a, b, round, |Roster(a.people, code)|);
    hide YesVoters, TallyTable, CountTable, ShutTable, ItemsOf, Roster, SameCount;
    assert DropBallots(a, options).responses == DropBallots(b, options).responses;
  }

  lemma SameTally(a: Db, b: Db, round: BatchId, roster: int)
    requires a.batchItems == b.batchItems && SameCount(a, b, round)
    ensures var options := ItemsOf(a.batchItems, round);
            TallyTable(a.batchItems, a.responses, options, roster)
              == TallyTable(b.batchItems, b.responses, options, roster)
  {
    hide YesVoters, Tallied;
  }

  lemma DropKeepsRelated(a: Db, b: Db, options: set<BatchItemId>, totals: bool)
    requires Related(a, b, totals)
    ensures Related(DropBallots(a, options), DropBallots(b, options), totals)
  {
    if totals {
      DropKeepsTotals(a.responses, b.responses, options, DropBallots(a, options).responses,
                      DropBallots(b, options).responses);
    }
  }

  lemma DropKeepsTotals(a: map<Ballot, Choice>, b: map<Ballot, Choice>, options: set<BatchItemId>,
                        fewerA: map<Ballot, Choice>, fewerB: map<Ballot, Choice>)
    requires SameTotals(a, b)
    requires fewerA == map k | k in a && k.item !in options :: a[k]
    requires fewerB == map k | k in b && k.item !in options :: b[k]
    ensures SameTotals(fewerA, fewerB)
  {
    forall x ensures |YesVoters(fewerA, x)| == |YesVoters(fewerB, x)| {
      if x in options {
        assert YesVoters(fewerA, x) == {} == YesVoters(fewerB, x);
      } else {
        assert YesVoters(fewerA, x) == YesVoters(a, x);
        assert YesVoters(fewerB, x) == YesVoters(b, x);
      }
    }
  }

  lemma CloseKeepsRelated(a: Db, b: Db, code: Code, round: BatchId, totals: bool)
    requires Related(a, b, totals) && round in a.batches
    requires a.batches[round].open ==> totals || SameCount(a, b, round)
    ensures Related(CloseRound(a, code, round), CloseRound(b, code, round), totals)
  {
    if a.batches[round].open {
      var options, roster := ItemsOf(a.batchItems, round), |Roster(a.people, code)|;
      SameTally(a, b, round, roster);
      var tallied := TallyTable(a.batchItems, a.responses, options, roster);
      hide YesVoters, TallyTable, CountTable, ShutTable, ItemsOf, Roster, SameTotals, SameCount, DropBallots;
      DropKeepsRelated(a.(batchItems := tallied, items := CountTable(a.items, tallied, options),
                          batches := ShutTable(a.batches, round)),
                       b.(batchItems := tallied, items := CountTable(a.items, tallied, options),
                          batches := ShutTable(a.batches, round)),
                       options, totals);
    }
  }

  /** A close publishes the yes total of each option. */
  lemma ClosePublishes(db: Db, code: Code, round: BatchId)
    requires round in db.batches && db.batches[round].open
    ensures var after := CloseRound(db, code, round);
            && round in after.batches && !after.batches[round].open && after.batchItems.Keys == db.batchItems.Keys
            && forall x | x in ItemsOf(db.batchItems, round) ::
                 after.batchItems[x].batch == round && after.batchItems[x].yes == |YesVoters(db.responses, x)|
  {
  }

  // ------------------------------------------------------------ voting

  lemma CastKeepsTotals(a: map<Ballot, Choice>, b: map<Ballot, Choice>, k: Ballot, choice: Choice)
    requires SameTotals(a, b) && k !in a && k !in b
    ensures SameTotals(a[k := choice], b[k := choice])
  {
    var ka, kb := a[k := choice], b[k := choice];
    forall x ensures |YesVoters(ka, x)| == |YesVoters(kb, x)| {
      var more: set<PersonId> := if x == k.item && choice == Yes then {k.voter} else {};
      assert k == Ballot(k.item, k.voter);
      assert k.voter !in YesVoters(a, k.item) && k.voter !in YesVoters(b, k.item);
      SplitSize(YesVoters(ka, x), YesVoters(a, x), more);
      SplitSize(YesVoters(kb, x), YesVoters(b, x), more);
    }
  }

  lemma CastKeepsRelated(a: Db, b: Db, k: Ballot, one: Choice, two: Choice, totals: bool)
    requires Related(a, b, totals) && k !in a.responses && (totals ==> one == two)
    ensures Related(a.(responses := a.responses[k := one]), b.(responses := b.responses[k := two]), totals)
  {
    if totals {
      CastKeepsTotals(a.responses, b.responses, k, one);
    }
  }

  lemma FinishedSeesKeys(a: map<Ballot, Choice>, b: map<Ballot, Choice>, options: set<BatchItemId>,
                         roster: set<PersonId>)
    requires a.Keys == b.Keys
    ensures Finished(a, options, roster) == Finished(b, options, roster)
  {
    forall p ensures Answered(a, options, p) == Answered(b, options, p) {
    }
    assert (set p | p in roster && |Answered(a, options, p)| == |options|)
        == (set p | p in roster && |Answered(b, options, p)| == |options|);
  }

  lemma VeiledFinished(a: Db, b: Db, code: Code, round: BatchId)
    requires Veiled(a, b)
    ensures EverybodyFinished(a, code, round) == EverybodyFinished(b, code, round)
  {
    FinishedSeesKeys(a.responses, b.responses, ItemsOf(a.batchItems, round), Roster(a.people, code));
    hide Finished;
  }

  lemma RecordKeepsRelated(a: Db, b: Db, code: Code, round: BatchId, p: PersonId, x: BatchItemId, one: Choice,
                           two: Choice, totals: bool)
    requires Related(a, b, totals) && round in a.batches && (totals ==> one == two)
    requires totals || Published(a, RecordVote(a, code, round, p, x, one), RecordVote(b, code, round, p, x, two))
    ensures Related(RecordVote(a, code, round, p, x, one), RecordVote(b, code, round, p, x, two), totals)
  {
    hide SameTotals, EverybodyFinished, CloseRound, Published, SameCount;
    var k := Ballot(x, p);
    if k !in a.responses {
      var ca, cb := a.(responses := a.responses[k := one]), b.(responses := b.responses[k := two]);
      CastKeepsRelated(a, b, k, one, two, totals);
      VeiledFinished(ca, cb, code, round);
      if EverybodyFinished(ca, code, round) {
        if ca.batches[round].open && !totals {
          var ra, rb := CloseRound(ca, code, round), CloseRound(cb, code, round);
          PublishedSame(a, ra, rb, ca, ra, rb);
          PublishedCounts(ca, cb, code, round);
        }
        CloseKeepsRelated(ca, cb, code, round, totals);
      }
    }
  }

  // ------------------------------------------------------------ what a request publishes

  /** For every option of a batch open in `before`, the two databases afterwards
      report the same yes total, where the batch has closed. */
  ghost predicate Published(before: Db, a: Db, b: Db) {
    forall x | x in before.batchItems && before.batchItems[x].batch in before.batches
               && before.batches[before.batchItems[x].batch].open
               && before.batchItems[x].batch in a.batches && !a.batches[before.batchItems[x].batch].open
               && x in a.batchItems && x in b.batchItems ::
      a.batchItems[x].yes == b.batchItems[x].yes
  }

  /** Only the tables of batches and options matter. */
  lemma PublishedSame(before: Db, a: Db, b: Db, early: Db, c: Db, d: Db)
    requires Published(before, a, b)
    requires early.batches == before.batches && early.batchItems == before.batchItems
    requires c.batches == a.batches && c.batchItems.Keys == a.batchItems.Keys && d.batchItems.Keys == b.batchItems.Keys
    requires forall x | x in c.batchItems :: c.batchItems[x].yes == a.batchItems[x].yes
    requires forall x | x in d.batchItems :: d.batchItems[x].yes == b.batchItems[x].yes
    ensures Published(early, c, d)
  {
  }

  lemma PublishedCounts(a: Db, b: Db, code: Code, round: BatchId)
    requires Veiled(a, b) && round in a.batches && a.batches[round].open
    requires Published(a, CloseRound(a, code, round), CloseRound(b, code, round))
    ensures SameCount(a, b, round)
  {
    ClosePublishes(a, code, round);
    ClosePublishes(b, code, round);
    hide CloseRound, YesVoters;
  }

  // ------------------------------------------------------------ requests

  lemma ExpiryKeepsRelated(a: Db, b: Db, code: Code, now: int, totals: bool)
    requires Related(a, b, totals) && code in a.sessions
    ensures Related(ExpireIfStale(a, code, now), ExpireIfStale(b, code, now), totals)
  {
    if Stale(a, code, now) {
      hide SameTotals, DropBallots;
      DropKeepsRelated(SetStatus(a, code, Expired), SetStatus(b, code, Expired), OpenOptions(a, code), totals);
    }
  }

  lemma GateKeepsRelated(a: Db, b: Db, code: Code, account: Option<Account>, now: int, totals: bool)
    requires Related(a, b, totals)
    ensures var ga, gb := HostGate(a, code, account, now), HostGate(b, code, account, now);
            && ga.Admitted? == gb.Admitted?
            && (ga.Turned? ==> ga.reply == gb.reply)
            && Related(ga.db, gb.db, totals)
  {
    hide SameTotals;
    if code in a.sessions {
      ExpiryKeepsRelated(a, b, code, now, totals);
    }
  }

  /** The same request, or the same vote with the other choice. */
  predicate Twins(x: Action, y: Action) {
    x == y
    || (x.CastVote? && y.CastVote? && y == x.(choice := y.choice)
        && (x.choice == "yes" || x.choice == "no") && (y.choice == "yes" || y.choice == "no"))
  }

  lemma VoteKeepsRelated(a: Db, b: Db, x: Action, y: Action, totals: bool)
    requires Related(a, b, totals) && Twins(x, y) && x.CastVote? && (totals ==> x == y)
    requires totals || Published(a, Step(a, x).0, Step(b, y).0)
    ensures Related(Step(a, x).0, Step(b, y).0, totals) && Step(a, x).1 == Step(b, y).1
  {
    hide SameTotals, ExpireIfStale, RecordVote, Published;
    var code := x.code;
    if code in a.sessions {
      ExpiryKeepsRelated(a, b, code, x.now, totals);
      ExpirySpares(a, code, x.now);
      var ca, cb := ExpireIfStale(a, code, x.now), ExpireIfStale(b, code, x.now);
      var viewer := ViewerParticipant(ca.people, code, x.cookie, x.account);
      var open := OpenBatch(ca.batches, code);
      if Live(ca.sessions[code].status) && viewer.Some? && open.Some? && x.option in ca.batchItems
         && ca.batchItems[x.option].batch == open.value && (x.choice == "yes" || x.choice == "no") {
        var one, two := if x.choice == "yes" then Yes else No, if y.choice == "yes" then Yes else No;
        var ra := RecordVote(ca, code, open.value, viewer.value, x.option, one);
        var rb := RecordVote(cb, code, open.value, viewer.value, x.option, two);
        if !totals {
          PublishedSame(a, Step(a, x).0, Step(b, y).0, ca, ra, rb);
        }
        RecordKeepsRelated(ca, cb, code, open.value, viewer.value, x.option, one, two, totals);
      }
    }
  }

  lemma CloseByHandKeepsRelated(a: Db, b: Db, x: Action, totals: bool)
    requires Related(a, b, totals) && x.Close?
    requires totals || Published(a, Step(a, x).0, Step(b, x).0)
    ensures Related(Step(a, x).0, Step(b, x).0, totals) && Step(a, x).1 == Step(b, x).1
  {
    hide HostGate, SameTotals, CloseRound, Published, SameCount;
    GateKeepsRelated(a, b, x.code, x.account, x.now, totals);
    var open := OpenBatch(a.batches, x.code);
    if HostGate(a, x.code, x.account, x.now).Admitted? && open.Some? {
      if !totals {
        PublishedSame(a, Step(a, x).0, Step(b, x).0, a, CloseRound(a, x.code, open.value),
                      CloseRound(b, x.code, open.value));
        PublishedCounts(a, b, x.code, open.value);
      }
      CloseKeepsRelated(a, b, x.code, open.value, totals);
    }
  }

  lemma FinishKeepsRelated(a: Db, b: Db, x: Action, totals: bool)
    requires Related(a, b, totals) && x.Finish?
    requires totals || Published(a, Step(a, x).0, Step(b, x).0)
    ensures Related(Step(a, x).0, Step(b, x).0, totals) && Step(a, x).1 == Step(b, x).1
  {
    hide HostGate, SameTotals, CloseRound, Published, SameCount, Undecided;
    GateKeepsRelated(a, b, x.code, x.account, x.now, totals);
    var open := OpenBatch(a.batches, x.code);
    if HostGate(a, x.code, x.account, x.now).Admitted? && open.Some? {
      if !totals {
        PublishedSame(a, Step(a, x).0, Step(b, x).0, a, CloseRound(a, x.code, open.value),
                      CloseRound(b, x.code, open.value));
        PublishedCounts(a, b, x.code, open.value);
      }
      CloseKeepsRelated(a, b, x.code, open.value, totals);
    }
  }

  lemma AssemblyRelated(a: Db, b: Db, code: Code, order: seq<Track>)
    requires Veiled(a, b) && code in a.sessions
    ensures NextBatchAssembly(a, code, order) == NextBatchAssembly(b, code, order)
    decreases |order|
  {
    if order != [] {
      AssemblyRelated(a, b, code, order[1..]);
    }
  }

  lemma DecisionKeepsRelated(a: Db, b: Db, x: BatchItemId, keep: bool, totals: bool)
    requires Related(a, b, totals) && x in a.batchItems
    ensures Related(WriteDecision(a, x, keep), WriteDecision(b, x, keep), totals)
  {
    hide SameTotals;
  }

  /** Dealing reads no vote. */
  lemma RoundIgnoresVotes(a: Db, code: Code, track: Track, chosen: seq<ItemId>, responses: map<Ballot, Choice>)
    ensures OpenRound(a.(responses := responses), code, track, chosen)
            == OpenRound(a, code, track, chosen).(responses := responses)
    ensures OpenRound(a, code, track, chosen).responses == a.responses
  {
    hide NewOptions, NextSeq, SeqsOf;
  }

  lemma StatusIgnoresVotes(a: Db, code: Code, status: Status, now: int, responses: map<Ballot, Choice>)
    requires code in a.sessions
    ensures Touch(SetStatus(a.(responses := responses), code, status), code, now)
            == Touch(SetStatus(a, code, status), code, now).(responses := responses)
    ensures Touch(SetStatus(a, code, status), code, now).responses == a.responses
  {
  }

  /** Starting reads no vote. */
  lemma StartIgnoresVotes(a: Db, code: Code, now: int, responses: map<Ballot, Choice>)
    requires code in a.sessions
    ensures StartAdmitted(a.(responses := responses), code, now)
            == (StartAdmitted(a, code, now).0.(responses := responses), StartAdmitted(a, code, now).1)
    ensures StartAdmitted(a, code, now).0.responses == a.responses
  {
    hide PoolOf, AssembleBatch, FirstTrack, OpenRound, OpenBatch, ApplyTransition, Touch, SetStatus;
    var s := a.sessions[code];
    var target := ApplyTransition(s.status, Voting);
    if target.Ok? {
      if s.collection.Some? && OpenBatch(a.batches, code).None? {
        var track := FirstTrack(s.targets);
        if track.Some? {
          var chosen := AssembleBatch(PoolOf(a.items, a.nextItem, s, track.value), {});
          RoundIgnoresVotes(a, code, track.value, chosen, responses);
          RoundShows(a, code, track.value, chosen);
          StatusIgnoresVotes(OpenRound(a, code, track.value, chosen), code, target.value, now, responses);
        }
      } else {
        StatusIgnoresVotes(a, code, target.value, now, responses);
      }
    }
  }

  lemma StartKeepsRelated(a: Db, b: Db, code: Code, account: Option<Account>, now: int, totals: bool)
    requires Related(a, b, totals)
    ensures var va, vb := StartVoting(a, code, account, now), StartVoting(b, code, account, now);
            Related(va.0, vb.0, totals) && va.1 == vb.1
  {
    hide HostGate, SameTotals, StartAdmitted;
    GateKeepsRelated(a, b, code, account, now, totals);
    if HostGate(a, code, account, now).Admitted? {
      AdmittedSession(a, code, account, now);
      StartIgnoresVotes(a, code, now, b.responses);
    }
  }

  lemma AdmittedSession(db: Db, code: Code, account: Option<Account>, now: int)
    requires HostGate(db, code, account, now).Admitted?
    ensures code in db.sessions
  {
  }

  lemma DecideKeepsRelated(a: Db, b: Db, code: Code, account: Option<Account>, round: BatchId, x: BatchItemId,
                           keep: bool, now: int, totals: bool)
    requires Related(a, b, totals)
    ensures var va, vb := Decide(a, code, account, round, x, keep, now), Decide(b, code, account, round, x, keep, now);
            Related(va.0, vb.0, totals) && va.1 == vb.1
  {
    hide HostGate, SameTotals, WriteDecision;
    GateKeepsRelated(a, b, code, account, now, totals);
    if x in a.batchItems {
      DecisionKeepsRelated(a, b, x, keep, totals);
    }
  }

  lemma PassIgnoresVotes(a: Db, ids: set<BatchItemId>, responses: map<Ballot, Choice>)
    ensures PassAll(a.(responses := responses), ids) == PassAll(a, ids).(responses := responses)
    ensures PassAll(a, ids).responses == a.responses
  {
  }

  lemma TouchIgnoresVotes(a: Db, code: Code, now: int, responses: map<Ballot, Choice>)
    ensures Touch(a.(responses := responses), code, now) == Touch(a, code, now).(responses := responses)
    ensures Touch(a, code, now).responses == a.responses
  {
  }

  lemma NextKeepsRelated(a: Db, b: Db, code: Code, account: Option<Account>, now: int, totals: bool)
    requires Related(a, b, totals)
    ensures var va, vb := NextBatch(a, code, account, now), NextBatch(b, code, account, now);
            Related(va.0, vb.0, totals) && va.1 == vb.1
  {
    hide HostGate, SameTotals, NextBatchAssembly, Undecided, PassAll, OpenRound, Touch;
    GateKeepsRelated(a, b, code, account, now, totals);
    if HostGate(a, code, account, now).Admitted? {
      AdmittedSession(a, code, account, now);
      AssemblyRelated(a, b, code, TRACK_ORDER);
      var ids := Undecided(a.batchItems, a.batches, code);
      PassIgnoresVotes(a, ids, b.responses);
      var (track, chosen) := NextBatchAssembly(a, code);
      if track.Some? {
        RoundIgnoresVotes(PassAll(a, ids), code, track.value, chosen, b.responses);
        TouchIgnoresVotes(OpenRound(PassAll(a, ids), code, track.value, chosen), code, now, b.responses);
      }
    }
  }

  lemma RemoveKeepsRelated(a: Db, b: Db, code: Code, account: Option<Account>, p: PersonId, now: int, totals: bool)
    requires Related(a, b, totals)
    ensures var va, vb := RemoveParticipant(a, code, account, p, now), RemoveParticipant(b, code, account, p, now);
            Related(va.0, vb.0, totals) && va.1 == vb.1
  {
    hide HostGate, SameTotals;
    GateKeepsRelated(a, b, code, account, now, totals);
  }

  lemma JoinKeepsRelated(a: Db, b: Db, code: Code, account: Option<Account>, name: string, now: int, totals: bool)
    requires Related(a, b, totals)
    ensures var va, vb := JoinSession(a, code, account, name, now), JoinSession(b, code, account, name, now);
            Related(va.0, vb.0, totals) && va.1 == vb.1 && va.2 == vb.2
  {
    hide SameTotals, ExpireIfStale, ExistingRow;
    if code in a.sessions {
      ExpiryKeepsRelated(a, b, code, now, totals);
    }
  }

  lemma LibraryAndCreateKeepRelated(a: Db, b: Db, x: Action, totals: bool)
    requires Related(a, b, totals)
    requires x.AddItem? || x.EditItem? || x.ArchiveItem? || x.Create?
    ensures Related(Step(a, x).0, Step(b, x).0, totals) && Step(a, x).1 == Step(b, x).1
  {
    hide SameTotals, ChosenTargets, MakeCode;
  }

  lemma ViewKeepsRelated(a: Db, b: Db, x: Action, totals: bool)
    requires Related(a, b, totals) && x.View?
    ensures Related(Step(a, x).0, Step(b, x).0, totals) && Step(a, x).1 == Step(b, x).1
  {
    hide SameTotals, ExpireIfStale;
    if x.code in a.sessions {
      ExpiryKeepsRelated(a, b, x.code, x.now, totals);
    }
  }

  /** Twin requests are answered alike and leave both databases related: with
      equal totals if the requests are the same, and veiled in any case once the
      totals they publish agree. */
  lemma StepKeepsRelated(a: Db, b: Db, x: Action, y: Action, totals: bool)
    requires Related(a, b, totals) && Twins(x, y) && (totals ==> x == y)
    requires totals || Published(a, Step(a, x).0, Step(b, y).0)
    ensures Related(Step(a, x).0, Step(b, y).0, totals) && Step(a, x).1 == Step(b, y).1
  {
    hide Related, Published, JoinSession, StartVoting, Vote, CloseByHand, Decide, NextBatch;
    hide FinishSession, RemoveParticipant, ExpireIfStale, CreateSession, EditLibrary;
    match x
    case AddItem(_, _, _) => LibraryAndCreateKeepRelated(a, b, x, totals);
    case EditItem(_, _, _) => LibraryAndCreateKeepRelated(a, b, x, totals);
    case ArchiveItem(_, _) => LibraryAndCreateKeepRelated(a, b, x, totals);
    case Create(_, _, _, _, _, _, _, _, _, _) => LibraryAndCreateKeepRelated(a, b, x, totals);
    case Join(code, account, name, now) => JoinKeepsRelated(a, b, code, account, name, now, totals);
    case Start(code, account, now) => StartKeepsRelated(a, b, code, account, now, totals);
    case CastVote(_, _, _, _, _, _) => VoteKeepsRelated(a, b, x, y, totals);
    case Close(_, _, _) => CloseByHandKeepsRelated(a, b, x, totals);
    case KeepOrPass(code, account, r, o, keep, now) => DecideKeepsRelated(a, b, code, account, r, o, keep, now, totals);
    case Next(code, account, now) => NextKeepsRelated(a, b, code, account, now, totals);
    case Finish(_, _, _) => FinishKeepsRelated(a, b, x, totals);
    case Remove(code, account, p, now) => RemoveKeepsRelated(a, b, code, account, p, now, totals);
    case View(_, _) => ViewKeepsRelated(a, b, x, totals);
  }

  /** Every request answers alike databases alike, and leaves them alike. */
  lemma StepKeepsAlike(a: Db, b: Db, action: Action)
    requires Alike(a, b)
    ensures Alike(Step(a, action).0, Step(b, action).0) && Step(a, action).1 == Step(b, action).1
  {
    hide Related, Step;
    StepKeepsRelated(a, b, action, action, true);
  }

  // ------------------------------------------------------------ what anyone sees

  /** Everything a page or poll can show of a session. */
  datatype Sight = Sight(
    results: Results, completion: Completion, finished: (int, int), cardsLeft: set<BatchItemId>,
    resultsPoll: Poll, cardPoll: Poll)

  ghost function Seen(db: Db, code: Code, b: BatchId, viewer: PersonId, pending: Option<int>, now: int): Sight
    requires code in db.sessions
  {
    Sight(ResultsPage(db, code, b), CompletionPage(db, code), VotingProgress(db, code), CardsLeft(db, b, viewer),
          ResultsState(db, code, b, pending, now).1, CardState(db, code, b, now).1)
  }

  lemma ProgressVeiled(a: Db, b: Db, code: Code, order: seq<Track>)
    requires Veiled(a, b) && code in a.sessions
    ensures TrackProgress(a, code, order) == TrackProgress(b, code, order)
    decreases |order|
  {
    if order != [] {
      ProgressVeiled(a, b, code, order[1..]);
    }
  }

  lemma CountsVeiled(a: Db, b: Db, code: Code, round: BatchId, viewer: PersonId)
    requires Veiled(a, b)
    ensures VotingProgress(a, code) == VotingProgress(b, code)
    ensures CardsLeft(a, round, viewer) == CardsLeft(b, round, viewer)
  {
    var open := OpenBatch(a.batches, code);
    if open.Some? {
      FinishedSeesKeys(a.responses, b.responses, ItemsOf(a.batchItems, open.value), Roster(a.people, code));
    }
    var options := ItemsOf(a.batchItems, round);
    assert Answered(a.responses, options, viewer) == Answered(b.responses, options, viewer);
  }

  lemma LinesVeiled(a: Db, b: Db, code: Code, round: BatchId)
    requires Veiled(a, b)
    ensures Lines(a, code, round) == Lines(b, code, round)
  {
    assert KeptRows(a, code) == KeptRows(b, code);
    hide KeptRows;
    assert Listed(a, code, round) == Listed(b, code, round);
    hide Listed;
  }

  lemma PagesVeiled(a: Db, b: Db, code: Code, round: BatchId)
    requires Veiled(a, b) && code in a.sessions
    ensures ResultsPage(a, code, round) == ResultsPage(b, code, round)
    ensures CompletionPage(a, code) == CompletionPage(b, code)
  {
    ProgressVeiled(a, b, code, TRACK_ORDER);
    assert KeptRows(a, code) == KeptRows(b, code);
    assert PendingRows(a, round) == PendingRows(b, round);
    assert NotKeptRows(a, round) == NotKeptRows(b, round);
    AssemblyRelated(a, b, code, TRACK_ORDER);
    LinesVeiled(a, b, code, round);
    hide Lines, TrackProgress, NextBatchAssembly;
  }

  lemma PollsVeiled(a: Db, b: Db, code: Code, round: BatchId, pending: Option<int>, now: int)
    requires Veiled(a, b) && code in a.sessions
    ensures ResultsState(a, code, round, pending, now).1 == ResultsState(b, code, round, pending, now).1
    ensures CardState(a, code, round, now).1 == CardState(b, code, round, now).1
  {
    hide ExpireIfStale, SameTotals;
    ExpiryKeepsRelated(a, b, code, now, false);
  }

  /** No page or poll tells veiled databases apart, running totals included. */
  lemma NothingShows(a: Db, b: Db, code: Code, round: BatchId, viewer: PersonId, pending: Option<int>, now: int)
    requires Veiled(a, b) && code in a.sessions
    ensures Seen(a, code, round, viewer, pending, now) == Seen(b, code, round, viewer, pending, now)
  {
    PagesVeiled(a, b, code, round);
    CountsVeiled(a, b, code, round, viewer);
    PollsVeiled(a, b, code, round, pending, now);
  }

  // ------------------------------------------------------------ runs

  ghost function Replies(db: Db, actions: seq<Action>): seq<Reply>
    decreases |actions|
  {
    if actions == [] then []
    else
      var init := actions[..|actions| - 1];
      Replies(db, init) + [Step(Run(db, init), actions[|actions| - 1]).1]
  }

  /** Two runs of twin requests that publish the same totals at every close. */
  ghost predicate PublishSame(a: Db, b: Db, one: seq<Action>, two: seq<Action>) {
    && |one| == |two|
    && (forall n | 0 <= n < |one| :: Twins(one[n], two[n]))
    && (forall n | 0 <= n < |one| :: Published(Run(a, one[..n]), Run(a, one[..n + 1]), Run(b, two[..n + 1])))
  }

  lemma {:induction false} RunKeepsRelated(a: Db, b: Db, one: seq<Action>, two: seq<Action>, totals: bool)
    requires Related(a, b, totals) && if totals then one == two else PublishSame(a, b, one, two)
    ensures Related(Run(a, one), Run(b, two), totals)
    ensures Replies(a, one) == Replies(b, two)
    decreases |one|
  {
    hide Related, Step, Published, Run, Twins;
    if one == [] {
      RunNothing(a);
      RunNothing(b);
    } else {
      var n := |one| - 1;
      var i, j := one[..n], two[..n];
      if !totals {
        assert (forall m | 0 <= m <= n :: i[..m] == one[..m] && j[..m] == two[..m]);
        assert Published(Run(a, one[..n]), Run(a, one[..n + 1]), Run(b, two[..n + 1]));
        assert one[..n + 1] == one && two[..n + 1] == two;
      }
      RunKeepsRelated(a, b, i, j, totals);
      RunUnfolds(a, one);
      RunUnfolds(b, two);
      TwinSelf(one[n]);
      StepKeepsRelated(Run(a, i), Run(b, j), one[n], two[n], totals);
    }
  }

  lemma TwinSelf(x: Action)
    ensures Twins(x, x)
  {
  }

  /** Non-interference over runs. Two runs in which the same people send the same
      requests, but vote as they please, are answered the same throughout and
      look the same to everybody in the end, if only the yes totals each close
      publishes agree. */
  lemma NothingLeaks(a: Db, b: Db, one: seq<Action>, two: seq<Action>)
    requires Veiled(a, b) && PublishSame(a, b, one, two)
    ensures Veiled(Run(a, one), Run(b, two))
    ensures Replies(a, one) == Replies(b, two)
    ensures forall code, round, viewer, pending, now | code in Run(a, one).sessions ::
              code in Run(b, two).sessions
              && Seen(Run(a, one), code, round, viewer, pending, now)
                 == Seen(Run(b, two), code, round, viewer, pending, now)
  {
    hide Run, Replies, PublishSame, Seen;
    RunKeepsRelated(a, b, one, two, false);
    forall code, round, viewer, pending, now | code in Run(a, one).sessions
      ensures code in Run(b, two).sessions
              && Seen(Run(a, one), code, round, viewer, pending, now)
                 == Seen(Run(b, two), code, round, viewer, pending, now)
    {
      NothingShows(Run(a, one), Run(b, two), code, round, viewer, pending, now);
    }
  }

  /** With the same requests in both, equal totals stay equal, so nothing need be
      asked of the closes. */
  lemma SameRequestsLeakNothing(a: Db, b: Db, actions: seq<Action>)
    requires Alike(a, b)
    ensures Alike(Run(a, actions), Run(b, actions))
    ensures Replies(a, actions) == Replies(b, actions)
  {
    hide Run, Replies, Related;
    RunKeepsRelated(a, b, actions, actions, true);
  }

  lemma BallotHasRound(db: Db, k: Ballot)
    requires Ballots(db.sessions, db.people, db.batches, db.batchItems, db.responses) && k in db.responses
    ensures exists c :: c in db.sessions && db.sessions[c].status == Voting && OpenBatches(db.batches, c) != {}
  {
    assert db.batchItems[k.item].batch in OpenBatches(db.batches, db.people[k.voter].session);
  }

  /** Once no voting session has a batch open, nothing of the votes is left at
      all: veiled databases are then the same database. */
  lemma NothingRemains(a: Db, b: Db)
    requires Veiled(a, b) && Ballots(a.sessions, a.people, a.batches, a.batchItems, a.responses)
    requires forall c | c in a.sessions && a.sessions[c].status == Voting :: OpenBatches(a.batches, c) == {}
    ensures a == b
  {
    forall k ensures k !in a.responses {
      if k in a.responses {
        BallotHasRound(a, k);
      }
    }
    assert a.responses == map[] == b.responses;
  }
}
