/** The engine as the handlers run it: one field per table, updated in place row
    by row. Every method is proved equal to its function in `Handlers`, so what
    holds of those functions and their runs holds of it. */
module Engine {
  import opened Prelude
  import opened SessionLogic
  import opened Tables
  import opened Pool
  import opened Invariants
  import opened Preservation
  import opened Runs
  import H = Handlers

  // ------------------------------------------------------------ loop steps

  /** Tallying one more option of the closing batch. */
  lemma TallyOneMore(batchItems: map<BatchItemId, BatchItem>, responses: map<Ballot, Choice>, done: set<BatchItemId>,
                     roster: int, x: BatchItemId)
    requires x in batchItems && x !in done
    ensures var partial := H.TallyTable(batchItems, responses, done, roster);
            && x in partial && partial[x] == batchItems[x]
            && H.TallyTable(batchItems, responses, done + {x}, roster)
               == partial[x := H.Tallied(partial[x], |YesVoters(responses, x)|, roster)]
  {
    hide YesVoters, H.Tallied;
  }

  lemma OneMore<T>(before: set<T>, after: set<T>, x: T, grows: bool)
    requires x !in before
    requires forall y :: y in after <==> y in before || (grows && y == x)
    ensures |after| == |before| + if grows then 1 else 0
  {
    assert after == before + if grows then {x} else {};
  }

  lemma ShownOneMore(partial: map<BatchItemId, BatchItem>, row: BatchItem, done: set<BatchItemId>, x: BatchItemId,
                     i: ItemId)
    requires x !in done
    ensures |H.Shown(partial[x := row], done + {x}, i)|
            == |H.Shown(partial, done, i)| + (if i == row.item then 1 else 0)
  {
    OneMore(H.Shown(partial, done, i), H.Shown(partial[x := row], done + {x}, i), x, i == row.item);
  }

  lemma KeptOneMore(partial: map<BatchItemId, BatchItem>, row: BatchItem, done: set<BatchItemId>, x: BatchItemId,
                    i: ItemId)
    requires x !in done
    ensures |H.ShownAndKept(partial[x := row], done + {x}, i)|
            == |H.ShownAndKept(partial, done, i)|
              + (if i == row.item && row.outcome == Some(KeptUnanimous) then 1 else 0)
  {
    OneMore(H.ShownAndKept(partial, done, i), H.ShownAndKept(partial[x := row], done + {x}, i), x,
            i == row.item && row.outcome == Some(KeptUnanimous));
  }

  function OfferedOnce(item: Item, row: BatchItem): Item {
    item.(timesOffered := item.timesOffered + 1,
          timesKept := item.timesKept + if row.outcome == Some(KeptUnanimous) then 1 else 0)
  }

  lemma CountOneMore(items: map<ItemId, Item>, partial: map<BatchItemId, BatchItem>, row: BatchItem,
                     done: set<BatchItemId>, x: BatchItemId)
    requires x !in done && row.item in items
    ensures var counted := H.CountTable(items, partial, done);
            && row.item in counted
            && H.CountTable(items, partial[x := row], done + {x})
               == counted[row.item := OfferedOnce(counted[row.item], row)]
  {
    hide H.Shown, H.ShownAndKept;
    var counted, more := H.CountTable(items, partial, done), H.CountTable(items, partial[x := row], done + {x});
    forall i | i in items
      ensures more[i] == counted[row.item := OfferedOnce(counted[row.item], row)][i]
    {
      ShownOneMore(partial, row, done, x, i);
      KeptOneMore(partial, row, done, x, i);
    }
  }

  lemma OptionAdded(before: map<BatchItemId, BatchItem>, b: BatchId, first: BatchItemId, chosen: seq<ItemId>, k: nat)
    requires k < |chosen|
    ensures before + H.NewOptions(b, first, chosen[..k + 1])
            == (before + H.NewOptions(b, first, chosen[..k]))[first + k := BatchItem(b, chosen[k], k, 0, 0, None)]
  {
    assert chosen[..k + 1][..k] == chosen[..k];
  }

  lemma CountNone(items: map<ItemId, Item>, partial: map<BatchItemId, BatchItem>)
    ensures H.CountTable(items, partial, {}) == items
  {
    forall i | i in items ensures H.CountTable(items, partial, {})[i] == items[i] {
      assert H.Shown(partial, {}, i) == {} && H.ShownAndKept(partial, {}, i) == {};
    }
  }

  lemma TallyNone(batchItems: map<BatchItemId, BatchItem>, responses: map<Ballot, Choice>, roster: int)
    ensures H.TallyTable(batchItems, responses, {}, roster) == batchItems
  {
  }

  class Engine {
    var items: map<ItemId, Item>
    var nextItem: nat
    var sessions: map<Code, Session>
    var activity: map<Code, int>
    var people: map<PersonId, Person>
    var nextPerson: nat
    var batches: map<BatchId, Batch>
    var nextBatch: nat
    var batchItems: map<BatchItemId, BatchItem>
    var nextBatchItem: nat
    var responses: map<Ballot, Choice>

    ghost function State(): Db
      reads this
    {
      Db(items, nextItem, sessions, activity, people, nextPerson, batches, nextBatch, batchItems, nextBatchItem,
         responses)
    }

    constructor ()
      ensures State() == EMPTY_DB && Inv(State())
    {
      items, nextItem, sessions, activity := map[], 0, map[], map[];
      people, nextPerson, batches, nextBatch := map[], 0, map[], 0;
      batchItems, nextBatchItem, responses := map[], 0, map[];
      new;
      EmptyIsFine();
    }

    // ---------------------------------------------------------- helpers

    method FindOpenBatch(code: Code) returns (open: Option<BatchId>)
      requires Newest(batches)
      ensures open == OpenBatch(batches, code)
    {
      if b :| b in batches && batches[b].session == code && batches[b].open {
        OneOpenBatch(State(), code, b);
        open := Some(b);
      } else {
        assert OpenBatches(batches, code) == {};
        open := None;
      }
    }

    method FindRow(code: Code, account: Account) returns (p: Option<PersonId>)
      requires Rosters(sessions, people)
      ensures p == H.ExistingRow(people, code, account)
    {
      if q :| q in people && people[q].session == code && people[q].account == Some(account) {
        assert q in RowsOf(people, code, account);
        p := Some(q);
      } else {
        assert RowsOf(people, code, account) == {};
        p := None;
      }
    }

    method FindViewer(code: Code, cookie: Option<PersonId>, account: Option<Account>) returns (p: Option<PersonId>)
      requires Rosters(sessions, people)
      ensures p == H.ViewerParticipant(people, code, cookie, account)
    {
      if cookie.Some? && cookie.value in people && people[cookie.value].session == code {
        p := cookie;
      } else if account.Some? {
        p := FindRow(code, account.value);
      } else {
        p := None;
      }
    }

    method ExpireIfStale(code: Code, now: int)
      requires code in sessions
      modifies this
      ensures State() == H.ExpireIfStale(old(State()), code, now)
    {
      if Live(sessions[code].status) && code in activity && activity[code] < now - H.EXPIRY_SECONDS {
        sessions := sessions[code := sessions[code].(status := Expired)];
        var options := set x | x in batchItems && InSession(batchItems, batches, code, x)
          && batches[batchItems[x].batch].open;
        responses := map k | k in responses && k.item !in options :: responses[k];
        people := map p | p in people && people[p].session != code :: people[p];
      }
    }

    /** The opening moves of every host action. */
    method Guard(code: Code, account: Option<Account>, now: int) returns (turned: Option<H.Reply>)
      requires Inv(State())
      modifies this
      ensures Inv(State())
      ensures match H.HostGate(old(State()), code, account, now)
              case Admitted(db) => turned == None && State() == db == old(State())
              case Turned(db, reply) => turned == Some(reply) && State() == db
    {
      hide Refs, Targets, Rosters, Rounds, Newest, Sizes, Sourced;
      hide DealOrder, Reported, Tallies, Ballots, Counters, NoneOverdue;
      GateKeeps(State(), code, account, now);
      if code !in sessions {
        return Some(H.NotFound);
      }
      ExpireIfStale(code, now);
      if account.None? {
        return Some(H.Unauthorized);
      }
      if sessions[code].host != account.value {
        return Some(H.Forbidden);
      }
      if !Live(sessions[code].status) {
        return Some(H.SeeSession);
      }
      return None;
    }

    /** One option of a closing batch: its counts and outcome, its item's counters. */
    method TallyOption(x: BatchItemId, roster: int)
      requires x in batchItems && batchItems[x].item in items
      modifies this`batchItems, this`items
      ensures batchItems == old(batchItems)[x := H.Tallied(old(batchItems)[x], |YesVoters(responses, x)|, roster)]
      ensures items == old(items)[batchItems[x].item := OfferedOnce(old(items)[batchItems[x].item], batchItems[x])]
    {
      var row := H.Tallied(batchItems[x], |YesVoters(responses, x)|, roster);
      batchItems := batchItems[x := row];
      items := items[row.item := items[row.item].(timesOffered := items[row.item].timesOffered + 1)];
      if row.outcome == Some(KeptUnanimous) {
        items := items[row.item := items[row.item].(timesKept := items[row.item].timesKept + 1)];
      }
    }

    method TallyOptions(options: set<BatchItemId>, roster: int)
      requires forall x | x in options :: x in batchItems && batchItems[x].item in items
      modifies this`batchItems, this`items
      ensures batchItems == H.TallyTable(old(batchItems), responses, options, roster)
      ensures items == H.CountTable(old(items), batchItems, options)
    {
      hide H.TallyTable, H.CountTable, H.Tallied, YesVoters;
      ghost var rows, counters := batchItems, items;
      var todo := options;
      ghost var done: set<BatchItemId> := {};
      TallyNone(batchItems, responses, roster);
      CountNone(items, batchItems);
      while todo != {}
        invariant options == todo + done && todo !! done
        invariant batchItems == H.TallyTable(rows, responses, done, roster)
        invariant items == H.CountTable(counters, batchItems, done)
      {
        var x :| x in todo;
        TallyOneMore(rows, responses, done, roster, x);
        TalliedItem(batchItems[x], |YesVoters(responses, x)|, roster);
        CountOneMore(counters, batchItems, H.Tallied(batchItems[x], |YesVoters(responses, x)|, roster), done, x);
        TallyOption(x, roster);
        todo, done := todo - {x}, done + {x};
      }
      assert done == options;
    }

    /** Rolls up one open batch option by option, then deletes every vote row of
        the batch and marks it closed; a batch already closed is left alone. */
    method CloseBatch(code: Code, b: BatchId)
      requires Refs(State()) && b in batches
      modifies this`batchItems, this`items, this`responses, this`batches
      ensures State() == H.CloseRound(old(State()), code, b)
    {
      if !batches[b].open {
        return;
      }
      var options := ItemsOf(batchItems, b);
      TallyOptions(options, |Roster(people, code)|);
      responses := map k | k in responses && k.item !in options :: responses[k];
      batches := batches[b := batches[b].(open := false)];
    }

    /** Defaults the given undecided items to "not kept". */
    method PassItems(undecided: set<BatchItemId>)
      modifies this`batchItems
      ensures State() == H.PassAll(old(State()), undecided)
    {
      ghost var was := batchItems;
      var todo := undecided * batchItems.Keys;
      while todo != {}
        invariant todo <= undecided * was.Keys && batchItems.Keys == was.Keys
        invariant forall x | x in was ::
                    batchItems[x] == if x in undecided && x !in todo then was[x].(outcome := Some(NotKept)) else was[x]
      {
        var x :| x in todo;
        batchItems := batchItems[x := batchItems[x].(outcome := Some(NotKept))];
        todo := todo - {x};
      }
      assert State() == H.PassAll(old(State()), undecided);
    }

    /** Inserts an open batch, then its options one by one in deal order. */
    method AddBatch(code: Code, track: Track, chosen: seq<ItemId>)
      modifies this`batches, this`nextBatch, this`batchItems, this`nextBatchItem
      ensures State() == H.OpenRound(old(State()), code, track, chosen)
    {
      hide H.NewOptions, NextSeq, SeqsOf;
      ghost var was := State();
      var b := nextBatch;
      NoOptions(b, nextBatchItem);
      ghost var first := nextBatchItem;
      batches := batches[b := Batch(code, NextSeq(SeqsOf(batches, code)), track, true)];
      nextBatch := b + 1;
      ghost var dealt := batches;
      for k := 0 to |chosen|
        invariant nextBatchItem == first + k
        invariant batchItems == was.batchItems + H.NewOptions(b, first, chosen[..k])
        invariant batches == dealt && nextBatch == b + 1
      {
        OptionAdded(was.batchItems, b, first, chosen, k);
        batchItems := batchItems[nextBatchItem := BatchItem(b, chosen[k], k, 0, 0, None)];
        nextBatchItem := nextBatchItem + 1;
      }
      assert chosen[..|chosen|] == chosen;
    }

    // ---------------------------------------------------------- the library

    method AddItem(collection: nat, name: string, types: set<Track>)
      requires Inv(State())
      modifies this`items, this`nextItem
      ensures Inv(State()) && State() == H.EditLibrary(old(State()), H.AddItem(collection, name, types))
    {
      hide Inv;
      LibraryKeeps(State(), H.AddItem(collection, name, types));
      items := items[nextItem := Item(collection, name, types, false, 0, 0)];
      nextItem := nextItem + 1;
    }

    method EditItem(i: ItemId, name: string, types: set<Track>)
      requires Inv(State())
      modifies this`items
      ensures Inv(State()) && State() == H.EditLibrary(old(State()), H.EditItem(i, name, types))
    {
      hide Inv;
      LibraryKeeps(State(), H.EditItem(i, name, types));
      if i in items {
        items := items[i := items[i].(name := name, types := types)];
      }
    }

    method ArchiveItem(i: ItemId, archived: bool)
      requires Inv(State())
      modifies this`items
      ensures Inv(State()) && State() == H.EditLibrary(old(State()), H.ArchiveItem(i, archived))
    {
      hide Inv;
      LibraryKeeps(State(), H.ArchiveItem(i, archived));
      if i in items {
        items := items[i := items[i].(archived := archived)];
      }
    }

    // ---------------------------------------------------------- handlers

    method MakeSessionCode(draws: seq<Code>) returns (code: Option<Code>)
      ensures code == MakeCode(sessions.Keys, draws)
    {
      var tries := if |draws| <= CODE_ATTEMPTS then draws else draws[..CODE_ATTEMPTS];
      for k := 0 to |tries|
        invariant FirstFree(sessions.Keys, tries) == FirstFree(sessions.Keys, tries[k..])
      {
        if tries[k] !in sessions {
          return Some(tries[k]);
        }
        assert tries[k..][1..] == tries[k + 1..];
      }
      return None;
    }

    method CreateSession(host: Account, hostName: string, collection: Option<nat>,
                         breakfasts: int, lunches: int, dinners: int, picks: int,
                         draws: seq<Code>, rolls: seq<seq<nat>>, now: int)
      returns (reply: H.Reply, created: Option<Code>)
      requires Inv(State())
      modifies this
      ensures Inv(State())
      ensures (State(), reply, created)
              == H.CreateSession(old(State()), host, hostName, collection, breakfasts, lunches, dinners, picks, draws,
                                 rolls, now)
    {
      hide Inv, MakeCode;
      CreateKeeps(State(), host, hostName, collection, breakfasts, lunches, dinners, picks, draws, rolls, now);
      var targets := H.ChosenTargets(collection, breakfasts, lunches, dinners, picks);
      if targets.Err? {
        return H.BadRequest, None;
      }
      created := MakeSessionCode(draws);
      if created.None? {
        return H.ServerError, None;
      }
      sessions := sessions[created.value := Session(Lobby, host, collection, targets.value, rolls)];
      activity := activity[created.value := now];
      people := people[nextPerson := Person(created.value, Some(host), hostName)];
      nextPerson := nextPerson + 1;
      reply := H.SeeSession;
    }

    method JoinSession(code: Code, account: Option<Account>, name: string, now: int)
      returns (reply: H.Reply, seated: Option<PersonId>)
      requires Inv(State())
      modifies this
      ensures Inv(State())
      ensures (State(), reply, seated) == H.JoinSession(old(State()), code, account, name, now)
    {
      hide Refs, Targets, Rosters, Rounds, Newest, Sizes, Sourced;
      hide DealOrder, Reported, Tallies, Ballots, Counters, NoneOverdue;
      hide H.ExistingRow;
      JoinKeeps(State(), code, account, name, now);
      if code !in sessions {
        return H.NotFound, None;
      }
      LookKeeps(State(), code, now);
      ExpireIfStale(code, now);
      if !Live(sessions[code].status) {
        return H.EndedPage, None;
      }
      if account.Some? {
        var existing := FindRow(code, account.value);
        if existing.Some? {
          return H.SeeSession, existing;
        }
      }
      if sessions[code].status == Voting {
        return H.JoinPage, None;
      }
      if name == "" {
        return H.BadRequest, None;
      }
      seated := Some(nextPerson);
      people := people[nextPerson := Person(code, account, name)];
      nextPerson := nextPerson + 1;
      activity := activity[code := now];
      reply := H.SeeSession;
    }

    method StartVoting(code: Code, account: Option<Account>, now: int) returns (reply: H.Reply)
      requires Inv(State())
      modifies this
      ensures Inv(State())
      ensures (State(), reply) == H.StartVoting(old(State()), code, account, now)
    {
      hide Refs, Targets, Rosters, Rounds, Newest, Sizes, Sourced;
      hide DealOrder, Reported, Tallies, Ballots, Counters, NoneOverdue;
      hide H.HostGate, H.ExpireIfStale, FirstTrack, PoolOf, AssembleBatch, H.OpenRound;
      StartVotingKeeps(State(), code, account, now);
      ghost var was := State();
      var turned := Guard(code, account, now);
      if turned.Some? {
        return turned.value;
      }
      GuardedIsThere(was, code, account, now);
      var target := ApplyTransition(sessions[code].status, Voting);
      if target.Err? {
        return H.SeeSession;
      }
      var open := FindOpenBatch(code);
      if sessions[code].collection.Some? && open.None? {
        var track := FirstTrack(sessions[code].targets);
        if track.None? {
          return H.BadRequest;
        }
        var chosen := AssembleBatch(PoolOf(items, nextItem, sessions[code], track.value), {});
        if chosen == [] {
          return H.BadRequest;
        }
        AddBatch(code, track.value, chosen);
      }
      sessions := sessions[code := sessions[code].(status := target.value)];
      activity := activity[code := now];
      reply := H.SeeSession;
    }

    method Vote(code: Code, cookie: Option<PersonId>, account: Option<Account>, x: BatchItemId, choice: string,
                now: int)
      returns (reply: H.Reply)
      requires Inv(State())
      modifies this
      ensures Inv(State())
      ensures (State(), reply) == H.Vote(old(State()), code, cookie, account, x, choice, now)
    {
      hide Refs, Targets, Rosters, Rounds, Newest, Sizes, Sourced;
      hide DealOrder, Reported, Tallies, Ballots, Counters, NoneOverdue;
      hide H.ExpireIfStale, H.CloseRound, H.EverybodyFinished, H.ViewerParticipant;
      CastVoteKeeps(State(), code, cookie, account, x, choice, now);
      if code !in sessions {
        return H.NotFound;
      }
      LookKeeps(State(), code, now);
      ExpireIfStale(code, now);
      ghost var current := State();
      if !Live(sessions[code].status) {
        return H.SeeSession;
      }
      var viewer := FindViewer(code, cookie, account);
      if viewer.None? {
        return H.SeeSession;
      }
      var open := FindOpenBatch(code);
      if open.None? {
        return H.SeeSession;
      }
      if x !in batchItems {
        return H.NotFound;
      }
      if batchItems[x].batch != open.value {
        return if InSession(batchItems, batches, code, x) then H.SeeSession else H.NotFound;
      }
      if choice != "yes" && choice != "no" {
        return H.BadRequest;
      }
      if Ballot(x, viewer.value) !in responses {
        responses := responses[Ballot(x, viewer.value) := if choice == "yes" then Yes else No];
        VotedRefs(current, code, viewer.value, x, responses);
        var finished := AllFinished(code, open.value);
        if finished {
          CloseBatch(code, open.value);
        }
      }
      activity := activity[code := now];
      reply := H.SeeSession;
    }

    /** The auto-close test on the counts of finished voters and roster. */
    method AllFinished(code: Code, b: BatchId) returns (all: bool)
      ensures all == H.EverybodyFinished(State(), code, b)
    {
      var roster := Roster(people, code);
      var options := ItemsOf(batchItems, b);
      var finished := if |options| == 0 then |roster| else Finished(responses, options, roster);
      all := |roster| > 0 && finished >= |roster|;
    }

    method CloseByHand(code: Code, account: Option<Account>, now: int) returns (reply: H.Reply)
      requires Inv(State())
      modifies this
      ensures Inv(State())
      ensures (State(), reply) == H.CloseByHand(old(State()), code, account, now)
    {
      hide Refs, Targets, Rosters, Rounds, Newest, Sizes, Sourced;
      hide DealOrder, Reported, Tallies, Ballots, Counters, NoneOverdue;
      hide H.HostGate, H.ExpireIfStale, H.CloseRound;
      CloseByHandKeeps(State(), code, account, now);
      var turned := Guard(code, account, now);
      if turned.Some? {
        return turned.value;
      }
      var open := FindOpenBatch(code);
      if open.None? {
        return H.SeeSession;
      }
      CloseBatch(code, open.value);
      activity := activity[code := now];
      reply := H.SeeSession;
    }

    method Decide(code: Code, account: Option<Account>, b: BatchId, x: BatchItemId, keep: bool, now: int)
      returns (reply: H.Reply)
      requires Inv(State())
      modifies this
      ensures Inv(State())
      ensures (State(), reply) == H.Decide(old(State()), code, account, b, x, keep, now)
    {
      hide Refs, Targets, Rosters, Rounds, Newest, Sizes, Sourced;
      hide DealOrder, Reported, Tallies, Ballots, Counters, NoneOverdue;
      hide H.HostGate, H.ExpireIfStale;
      DecideKeeps(State(), code, account, b, x, keep, now);
      var turned := Guard(code, account, now);
      if turned.Some? {
        return turned.value;
      }
      if b !in batches || batches[b].session != code || x !in batchItems || batchItems[x].batch != b {
        return H.NotFound;
      }
      if batches[b].open || batchItems[x].outcome.Some? {
        return H.SeeSession;
      }
      if keep {
        batchItems := batchItems[x := batchItems[x].(outcome := Some(KeptHost))];
        var i := batchItems[x].item;
        if i in items {
          items := items[i := items[i].(timesKept := items[i].timesKept + 1)];
        }
      } else {
        batchItems := batchItems[x := batchItems[x].(outcome := Some(NotKept))];
      }
      activity := activity[code := now];
      reply := H.SeeSession;
    }

    method NextBatch(code: Code, account: Option<Account>, now: int) returns (reply: H.Reply)
      requires Inv(State())
      modifies this
      ensures Inv(State())
      ensures (State(), reply) == H.NextBatch(old(State()), code, account, now)
    {
      hide Refs, Targets, Rosters, Rounds, Newest, Sizes, Sourced;
      hide DealOrder, Reported, Tallies, Ballots, Counters, NoneOverdue;
      hide H.HostGate, H.ExpireIfStale, H.OpenRound, H.PassAll, H.NextBatchAssembly;
      NextBatchKeeps(State(), code, account, now);
      ghost var was := State();
      var turned := Guard(code, account, now);
      if turned.Some? {
        return turned.value;
      }
      GuardedIsThere(was, code, account, now);
      var open := FindOpenBatch(code);
      if sessions[code].status != Voting || open.Some? {
        return H.SeeSession;
      }
      var stored :=
        Db(items, nextItem, sessions, activity, people, nextPerson, batches, nextBatch, batchItems, nextBatchItem,
           responses);
      PassItems(Undecided(batchItems, batches, code));
      var (track, chosen) := H.NextBatchAssembly(stored, code);
      if track.None? {
        return H.SeeSession;
      }
      AddBatch(code, track.value, chosen);
      activity := activity[code := now];
      reply := H.SeeSession;
    }

    /** What the host left undecided is looked up in the rows as stored before
        this request, whose own writes have not been flushed yet. */
    method FinishSession(code: Code, account: Option<Account>, now: int) returns (reply: H.Reply)
      requires Inv(State())
      modifies this
      ensures Inv(State())
      ensures (State(), reply) == H.FinishSession(old(State()), code, account, now)
    {
      hide Refs, Targets, Rosters, Rounds, Newest, Sizes, Sourced;
      hide DealOrder, Reported, Tallies, Ballots, Counters, NoneOverdue;
      hide H.HostGate, H.ExpireIfStale, H.CloseRound, H.PassAll, Undecided;
      FinishKeeps(State(), code, account, now);
      ghost var was := State();
      var turned := Guard(code, account, now);
      if turned.Some? {
        return turned.value;
      }
      GuardedIsThere(was, code, account, now);
      var stored := Undecided(batchItems, batches, code);
      var open := FindOpenBatch(code);
      if open.Some? {
        CloseBatch(code, open.value);
        activity := activity[code := now];
      }
      PassItems(stored);
      sessions := sessions[code := sessions[code].(status := Complete)];
      people := map p | p in people && people[p].session != code :: people[p];
      reply := H.SeeSession;
    }

    method RemoveParticipant(code: Code, account: Option<Account>, p: PersonId, now: int) returns (reply: H.Reply)
      requires Inv(State())
      modifies this
      ensures Inv(State())
      ensures (State(), reply) == H.RemoveParticipant(old(State()), code, account, p, now)
    {
      hide Refs, Targets, Rosters, Rounds, Newest, Sizes, Sourced;
      hide DealOrder, Reported, Tallies, Ballots, Counters, NoneOverdue;
      hide H.HostGate, H.ExpireIfStale;
      RemoveKeeps(State(), code, account, p, now);
      ghost var was := State();
      var turned := Guard(code, account, now);
      if turned.Some? {
        return turned.value;
      }
      GuardedIsThere(was, code, account, now);
      if sessions[code].status != Lobby {
        return H.SeeSession;
      }
      if p !in people || people[p].session != code {
        return H.SeeSession;
      }
      if people[p].account == Some(sessions[code].host) {
        return H.BadRequest;
      }
      people := people - {p};
      activity := activity[code := now];
      reply := H.SeeSession;
    }
  }

  // ------------------------------------------------------------ small facts the methods use

  lemma NoOptions(b: BatchId, first: BatchItemId)
    ensures H.NewOptions(b, first, []) == map[]
  {
  }

  lemma TalliedItem(row: BatchItem, yes: int, roster: int)
    ensures H.Tallied(row, yes, roster).item == row.item
  {
  }

  lemma GuardedIsThere(db: Db, code: Code, account: Option<Account>, now: int)
    requires H.HostGate(db, code, account, now).Admitted?
    ensures code in db.sessions
  {
  }

  lemma LookKeeps(db: Db, code: Code, now: int)
    requires Inv(db) && code in db.sessions
    ensures Inv(H.ExpireIfStale(db, code, now)) && code in H.ExpireIfStale(db, code, now).sessions
  {
    hide Refs, Targets, Rosters, Rounds, Newest, Sizes, Sourced;
    hide DealOrder, Reported, Tallies, Ballots, Counters, NoneOverdue;
    StepKeeps(db, H.View(code, now));
  }

  /** A viewer's vote on an existing option keeps references whole. */
  lemma VotedRefs(db: Db, code: Code, p: PersonId, x: BatchItemId, responses: map<Ballot, Choice>)
    requires Refs(db) && p in Roster(db.people, code) && x in db.batchItems
    requires forall k | k in responses :: k in db.responses || k == Ballot(x, p)
    ensures Refs(db.(responses := responses))
  {
  }
}
