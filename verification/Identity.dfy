/** Who a request is from, over whole runs of many browsers: a browser's cookie
    for a session resolves to the very row it was granted or to nothing, because
    participant ids are never handed out twice and rows never change; so nobody's
    vote is ever cast by anybody else. */
module Identity {
  import opened Prelude
  import opened SessionLogic
  import opened Tables
  import opened Handlers
  import opened Invariants
  import opened Runs
  import opened History
  import opened Lifecycle
  import opened Casting
  import Jar = CookieJar

  type Browser = nat

  /** A cookie entry pointed at a participant row, and the row it was then. */
  datatype Grant = Grant(browser: Browser, entry: Jar.Entry, row: Person)

  datatype Request = Request(browser: Browser, action: Action)

  datatype World = World(db: Db, jars: map<Browser, seq<Jar.Entry>>, grants: seq<Grant>)

  const EMPTY_WORLD := World(EMPTY_DB, map[], [])

  function JarOf(w: World, browser: Browser): seq<Jar.Entry> {
    if browser in w.jars then w.jars[browser] else []
  }

  /** A vote arrives with whatever the browser's jar holds for the session. */
  function Carried(a: Action, jar: seq<Jar.Entry>): Action {
    if a.CastVote? then a.(cookie := Jar.Lookup(jar, a.code)) else a
  }

  /** The cookie entry set by creating or joining a session. */
  ghost function Granted(db: Db, a: Action): (e: Option<Jar.Entry>)
    ensures e.Some? ==> var people := Step(db, a).0.people;
            e.value.id in people && people[e.value.id].session == e.value.code
  {
    match a
    case Create(host, name, coll, br, lu, di, pi, draws, rolls, now) =>
      var code := CreateSession(db, host, name, coll, br, lu, di, pi, draws, rolls, now).2;
      if code.Some? then Some(Jar.Entry(code.value, db.nextPerson)) else None
    case Join(code, account, name, now) =>
      var p := JoinSession(db, code, account, name, now).2;
      if p.Some? then Some(Jar.Entry(code, p.value)) else None
    case _ => None
  }

  ghost function Ask(w: World, r: Request): World {
    var jar := JarOf(w, r.browser);
    var a := Carried(r.action, jar);
    var after := Step(w.db, a).0;
    match Granted(w.db, a)
    case None => w.(db := after)
    case Some(e) =>
      World(after, w.jars[r.browser := Jar.Written(jar, e)], w.grants + [Grant(r.browser, e, after.people[e.id])])
  }

  ghost function Serve(requests: seq<Request>): World
    decreases |requests|
  {
    if requests == [] then EMPTY_WORLD else Ask(Serve(requests[..|requests| - 1]), requests[|requests| - 1])
  }

  // ------------------------------------------------------------ ids are never reused

  /** Rows never change; they only go, and newcomers get fresh ids. */
  ghost predicate PeopleOnward(a: map<PersonId, Person>, next: nat, b: map<PersonId, Person>, later: nat) {
    next <= later && forall p | p in b :: p < later && (if p in a then b[p] == a[p] else p >= next)
  }

  ghost predicate RowsStand(a: Db, b: Db) {
    PeopleOnward(a.people, a.nextPerson, b.people, b.nextPerson)
  }

  lemma RowsStandTransitive(a: Db, b: Db, c: Db)
    requires RowsStand(a, b) && RowsStand(b, c)
    requires forall p | p in a.people :: p < a.nextPerson
    ensures RowsStand(a, c)
  {
  }

  lemma ExpiryRows(db: Db, code: Code, now: int)
    requires code in db.sessions && forall p | p in db.people :: p < db.nextPerson
    ensures RowsStand(db, ExpireIfStale(db, code, now))
  {
  }

  lemma GateRows(db: Db, code: Code, account: Option<Account>, now: int)
    requires forall p | p in db.people :: p < db.nextPerson
    ensures RowsStand(db, HostGate(db, code, account, now).db)
  {
  }

  lemma FinishRows(db: Db, code: Code, account: Option<Account>, now: int)
    requires (forall p | p in db.people :: p < db.nextPerson) && HostGate(db, code, account, now).Admitted?
    ensures RowsStand(db, FinishSession(db, code, account, now).0)
  {
    hide HostGate, CloseRound, Undecided, OpenBatch;
    if OpenBatch(db.batches, code).Some? {
      CloseSpares(db, code, OpenBatch(db.batches, code).value);
    }
  }

  lemma HostStepRows(db: Db, a: Action)
    requires forall p | p in db.people :: p < db.nextPerson
    requires a.Start? || a.Close? || a.KeepOrPass? || a.Next? || a.Finish? || a.Remove?
    ensures RowsStand(db, Step(db, a).0)
  {
    hide HostGate, StartAdmitted, NextBatch, FinishSession, CloseRound, WriteDecision, OpenBatch;
    GateRows(db, a.code, a.account, a.now);
    if HostGate(db, a.code, a.account, a.now).Admitted? {
      AdmittedIsLive(db, a.code, a.account, a.now);
      RowsStandSelf(db);
      match a
      case Start(code, account, now) => StartPeople(db, code, now);
      case Close(code, _, _) =>
        if OpenBatch(db.batches, code).Some? {
          CloseSpares(db, code, OpenBatch(db.batches, code).value);
        }
      case KeepOrPass(_, _, _, x, keep, _) => if x in db.batchItems { DecisionSessions(db, x, keep); }
      case Next(code, account, now) => NextPeople(db, code, account, now);
      case Finish(code, account, now) => FinishRows(db, code, account, now);
      case Remove(_, _, _, _) =>
    } else {
      TurnedSteps(db, a);
    }
  }

  lemma TurnedSteps(db: Db, a: Action)
    requires a.Start? || a.Close? || a.KeepOrPass? || a.Next? || a.Finish? || a.Remove?
    requires HostGate(db, a.code, a.account, a.now).Turned?
    ensures Step(db, a).0 == HostGate(db, a.code, a.account, a.now).db
  {
    hide HostGate;
  }

  lemma VoteRows(db: Db, code: Code, cookie: Option<PersonId>, account: Option<Account>, x: BatchItemId,
                 choice: string, now: int)
    requires forall p | p in db.people :: p < db.nextPerson
    ensures RowsStand(db, Vote(db, code, cookie, account, x, choice, now).0)
  {
    hide ExpireIfStale, EverybodyFinished, ItemsOf, TallyTable, CountTable, ShutTable, ViewerParticipant;
    if code in db.sessions {
      ExpiryRows(db, code, now);
    }
  }

  lemma JoinRows(db: Db, code: Code, account: Option<Account>, name: string, now: int)
    requires forall p | p in db.people :: p < db.nextPerson
    ensures RowsStand(db, JoinSession(db, code, account, name, now).0)
  {
    hide ExpireIfStale, ExistingRow;
    if code in db.sessions {
      ExpiryRows(db, code, now);
    }
  }

  lemma OtherRows(db: Db, a: Action)
    requires forall p | p in db.people :: p < db.nextPerson
    requires a.AddItem? || a.EditItem? || a.ArchiveItem? || a.Create?
    ensures RowsStand(db, Step(db, a).0)
  {
    hide ChosenTargets, MakeCode;
  }

  lemma StepRows(db: Db, a: Action)
    requires forall p | p in db.people :: p < db.nextPerson
    ensures RowsStand(db, Step(db, a).0)
  {
    hide RowsStand, JoinSession, StartVoting, Vote, CloseByHand, Decide;
    hide NextBatch, FinishSession, RemoveParticipant, CreateSession, EditLibrary, ExpireIfStale;
    match a
    case AddItem(_, _, _) => OtherRows(db, a);
    case EditItem(_, _, _) => OtherRows(db, a);
    case ArchiveItem(_, _) => OtherRows(db, a);
    case Create(_, _, _, _, _, _, _, _, _, _) => OtherRows(db, a);
    case Join(code, account, name, now) => JoinRows(db, code, account, name, now);
    case Start(_, _, _) => HostStepRows(db, a);
    case CastVote(code, cookie, account, x, choice, now) => VoteRows(db, code, cookie, account, x, choice, now);
    case Close(_, _, _) => HostStepRows(db, a);
    case KeepOrPass(_, _, _, _, _, _) => HostStepRows(db, a);
    case Next(_, _, _) => HostStepRows(db, a);
    case Finish(_, _, _) => HostStepRows(db, a);
    case Remove(_, _, _, _) => HostStepRows(db, a);
    case View(code, now) =>
      RowsStandSelf(db);
      if code in db.sessions {
        ExpiryRows(db, code, now);
      }
  }

  lemma RowsStandSelf(db: Db)
    requires forall p | p in db.people :: p < db.nextPerson
    ensures RowsStand(db, db)
  {
  }

  lemma {:induction false} RunRows(db: Db, actions: seq<Action>)
    requires forall p | p in db.people :: p < db.nextPerson
    ensures RowsStand(db, Run(db, actions))
    decreases |actions|
  {
    hide Step;
    RowsStandSelf(db);
    if actions != [] {
      var before := Run(db, actions[..|actions| - 1]);
      RunRows(db, actions[..|actions| - 1]);
      StepRows(before, actions[|actions| - 1]);
      RowsStandTransitive(db, before, Run(db, actions));
    }
  }

  /** A participant id that has left the roster never comes back, whoever joins
      later; one that is still there is the same row as before. */
  lemma NeverSomebodyElse(before: seq<Action>, actions: seq<Action>, p: PersonId)
    ensures var a, b := Reached(before), Run(Reached(before), actions);
            p < a.nextPerson && p in b.people ==> p in a.people && b.people[p] == a.people[p]
  {
    hide Run, Targets, Rosters, Rounds, Newest, Sizes, Sourced;
    hide DealOrder, Reported, Tallies, Ballots, Counters, NoneOverdue;
    ReachedKeeps(before);
    RunRows(Reached(before), actions);
  }

  /** Somebody the host has removed is never seated again under that id. */
  lemma RemovedForGood(before: seq<Action>, code: Code, account: Option<Account>, p: PersonId, now: int,
                       actions: seq<Action>)
    ensures var db := Reached(before);
            && HostGate(db, code, account, now).Admitted? && db.sessions[code].status == Lobby
            && p in Seats(db.people, code) && Seats(db.people, code)[p].account != account ==>
            var (after, reply) := RemoveParticipant(db, code, account, p, now);
            reply == SeeSession && p !in Run(after, actions).people
  {
    hide Targets, Rosters, Rounds, Newest, Sizes, Sourced, DealOrder, Reported, Tallies, Ballots, Counters, NoneOverdue;
    hide Run, HostGate, RemoveParticipant, Seats;
    var db := Reached(before);
    ReachedKeeps(before);
    if && HostGate(db, code, account, now).Admitted? && db.sessions[code].status == Lobby
       && p in Seats(db.people, code) && Seats(db.people, code)[p].account != account
    {
      RemoveGivesUpASeat(db, code, account, p, now);
      var after := RemoveParticipant(db, code, account, p, now).0;
      StepKeeps(db, Remove(code, account, p, now));
      StepRows(db, Remove(code, account, p, now));
      InSeats(db.people, p, code);
      InSeats(after.people, p, code);
      RunRows(after, actions);
    }
  }

  // ------------------------------------------------------------ what the jars hold

  /** The grants made to one browser, in order. */
  function GrantsTo(grants: seq<Grant>, browser: Browser): seq<Grant> {
    if grants == [] then []
    else
      var g := grants[|grants| - 1];
      GrantsTo(grants[..|grants| - 1], browser) + (if g.browser == browser then [g] else [])
  }

  function EntriesOf(grants: seq<Grant>): seq<Jar.Entry> {
    seq(|grants|, k requires 0 <= k < |grants| => grants[k].entry)
  }

  ghost predicate Honest(db: Db, g: Grant) {
    && g.row.session == g.entry.code
    && g.entry.id < db.nextPerson
    && (g.entry.id in db.people ==> db.people[g.entry.id] == g.row)
  }

  ghost predicate JarsRecord(w: World) {
    forall b :: JarOf(w, b) == Jar.Capped(Jar.Recency(EntriesOf(GrantsTo(w.grants, b))))
  }

  ghost predicate Faithful(w: World) {
    && Inv(w.db)
    && (forall n | 0 <= n < |w.grants| :: Honest(w.db, w.grants[n]))
    && JarsRecord(w)
  }

  lemma GrantWrites(grants: seq<Grant>, g: Grant)
    ensures EntriesOf(grants + [g]) == EntriesOf(grants) + [g.entry]
  {
  }

  /** Capping on every write equals capping the whole record. */
  lemma JarFollows(jar: seq<Jar.Entry>, grants: seq<Grant>, g: Grant)
    requires jar == Jar.Capped(Jar.Recency(EntriesOf(grants)))
    ensures Jar.Written(jar, g.entry) == Jar.Capped(Jar.Recency(EntriesOf(grants + [g])))
  {
    GrantWrites(grants, g);
    var written := EntriesOf(grants);
    Jar.RecencyDistinct(written);
    Jar.CappedWrite(Jar.Recency(written), g.entry);
    assert (written + [g.entry])[..|written|] == written;
  }

  lemma AskJars(w: World, r: Request)
    requires JarsRecord(w)
    ensures JarsRecord(Ask(w, r))
  {
    hide Step, Granted, Jar.Written, Jar.Recency, Jar.Capped;
    var after := Ask(w, r);
    if |after.grants| > |w.grants| {
      var g := after.grants[|w.grants|];
      assert after.grants[..|after.grants| - 1] == w.grants;
      JarFollows(JarOf(w, r.browser), GrantsTo(w.grants, r.browser), g);
      forall b ensures JarOf(after, b) == Jar.Capped(Jar.Recency(EntriesOf(GrantsTo(after.grants, b)))) {
        if b != r.browser {
          assert GrantsTo(after.grants, b) == GrantsTo(w.grants, b);
        }
      }
    }
  }

  lemma AskFaithful(w: World, r: Request)
    requires Faithful(w)
    ensures Faithful(Ask(w, r))
  {
    hide Targets, Rosters, Rounds, Newest, Sizes, Sourced, DealOrder, Reported, Tallies, Ballots, Counters, NoneOverdue;
    hide Step, JarsRecord, Jar.Written, Jar.Lookup;
    var a := Carried(r.action, JarOf(w, r.browser));
    StepKeeps(w.db, a);
    StepRows(w.db, a);
    AskJars(w, r);
    hide Granted, Carried;
    var after := Ask(w, r);
    forall n | 0 <= n < |after.grants| ensures Honest(after.db, after.grants[n]) {
      if n < |w.grants| {
        assert Honest(w.db, w.grants[n]);
      }
    }
  }

  lemma {:induction false} ServeFaithful(requests: seq<Request>)
    ensures Faithful(Serve(requests))
    decreases |requests|
  {
    hide Faithful, Ask;
    if requests == [] {
      EmptyFaithful();
    } else {
      ServeFaithful(requests[..|requests| - 1]);
      AskFaithful(Serve(requests[..|requests| - 1]), requests[|requests| - 1]);
    }
  }

  lemma EmptyFaithful()
    ensures Faithful(EMPTY_WORLD)
  {
    EmptyIsFine();
  }

  lemma {:induction false} GrantsToSound(grants: seq<Grant>, browser: Browser, k: nat)
    requires k < |GrantsTo(grants, browser)|
    ensures GrantsTo(grants, browser)[k].browser == browser
    ensures exists n :: 0 <= n < |grants| && grants[n] == GrantsTo(grants, browser)[k]
    decreases |grants|
  {
    var init := grants[..|grants| - 1];
    if k < |GrantsTo(init, browser)| {
      GrantsToSound(init, browser, k);
      var n :| 0 <= n < |init| && init[n] == GrantsTo(init, browser)[k];
      assert grants[n] == GrantsTo(grants, browser)[k];
    } else {
      assert grants[|grants| - 1] == GrantsTo(grants, browser)[k];
    }
  }

  /** Identity safety. Take the latest grant a browser got for a session. If
      twenty or more other sessions were granted since, the cookie holds nothing
      for it. Otherwise the cookie holds that grant's id, and it resolves to the
      very row granted, as long as that row exists; once it is gone the viewer
      is the account's own row, or nobody. */
  lemma CookieResolves(requests: seq<Request>, browser: Browser, n: nat, account: Option<Account>)
    requires Jar.LastWriteOf(EntriesOf(GrantsTo(Serve(requests).grants, browser)), n)
    ensures var w := Serve(requests);
            var grants := GrantsTo(w.grants, browser);
            var g := grants[n];
            var cookie := Jar.Lookup(JarOf(w, browser), g.entry.code);
            var viewer := ViewerParticipant(w.db.people, g.entry.code, cookie, account);
            && g.browser == browser && g.row.session == g.entry.code
            && cookie == (if |Jar.CodesSince(EntriesOf(grants), n)| < 20 then Some(g.entry.id) else None)
            && (if cookie.Some? && g.entry.id in w.db.people
                then viewer == Some(g.entry.id) && w.db.people[g.entry.id] == g.row
                else viewer == if account.None? then None else ExistingRow(w.db.people, g.entry.code, account.value))
  {
    hide Inv, Jar.CodesSince, Jar.Capped, Jar.Recency, Jar.LastWriteOf, Jar.Lookup, GrantsTo, ExistingRow;
    var w := Serve(requests);
    var grants := GrantsTo(w.grants, browser);
    ServeFaithful(requests);
    LastWriteExists(EntriesOf(grants), n);
    GrantsToSound(w.grants, browser, n);
    Jar.LookupFinds(EntriesOf(grants), n);
    var m :| 0 <= m < |w.grants| && w.grants[m] == grants[n];
    assert Honest(w.db, w.grants[m]);
  }

  lemma LastWriteExists(written: seq<Jar.Entry>, n: nat)
    requires Jar.LastWriteOf(written, n)
    ensures n < |written|
  {
  }

  /** A browser that has just created or joined a session holds the row it was
      given; no other request writes a cookie, and no other browser's is touched. */
  lemma JoiningIsRemembered(requests: seq<Request>, r: Request)
    ensures var w := Serve(requests);
            var after := Ask(w, r);
            && (forall b | b != r.browser :: JarOf(after, b) == JarOf(w, b))
            && match r.action
               case Create(host, name, coll, br, lu, di, pi, draws, rolls, now) =>
                 var code := CreateSession(w.db, host, name, coll, br, lu, di, pi, draws, rolls, now).2;
                 if code.None? then after.jars == w.jars
                 else Jar.Lookup(JarOf(after, r.browser), code.value) == Some(w.db.nextPerson)
               case Join(code, account, name, now) =>
                 var p := JoinSession(w.db, code, account, name, now).2;
                 if p.None? then after.jars == w.jars else Jar.Lookup(JarOf(after, r.browser), code) == p
               case _ => after.jars == w.jars
  {
    var w := Serve(requests);
    ServeFaithful(requests);
    hide Inv, Honest, Step, CreateSession, JoinSession, Serve, Jar.Written, Jar.Lookup, Jar.Recency, Jar.Capped;
    var e := Granted(w.db, Carried(r.action, JarOf(w, r.browser)));
    if e.Some? {
      Jar.WriteFound(EntriesOf(GrantsTo(w.grants, r.browser)), e.value);
    }
  }

  /** A browser never granted a session's row holds no entry for it. */
  lemma NoGrantNoCookie(requests: seq<Request>, browser: Browser, code: Code)
    ensures var w := Serve(requests);
            Jar.Lookup(JarOf(w, browser), code).Some? ==>
            exists g :: g in w.grants && g.browser == browser && g.entry.code == code
  {
    hide Inv, Honest, Jar.Capped, Jar.Recency, Jar.Lookup, GrantsTo;
    var w := Serve(requests);
    var grants := GrantsTo(w.grants, browser);
    ServeFaithful(requests);
    Jar.LookupUnwritten(EntriesOf(grants), code);
    if Jar.Lookup(JarOf(w, browser), code).Some? {
      var k :| 0 <= k < |EntriesOf(grants)| && EntriesOf(grants)[k].code == code;
      GrantsToSound(w.grants, browser, k);
      assert grants[k] in w.grants;
    }
  }

  // ------------------------------------------------------------ votes are one's own

  lemma {:induction false} LastWriteFound(written: seq<Jar.Entry>, code: Code) returns (n: nat)
    requires code in Jar.CodesOf(written)
    ensures Jar.LastWriteOf(written, n) && written[n].code == code
  {
    var init, last := written[..|written| - 1], |written| - 1;
    if written[last].code == code {
      n := last;
    } else {
      assert forall m | 0 <= m < last :: init[m] == written[m];
      n := LastWriteFound(init, code);
    }
  }

  /** An id a jar holds for a session was granted to its browser. */
  lemma HeldIsGranted(w: World, browser: Browser, code: Code)
    requires Faithful(w) && Jar.Lookup(JarOf(w, browser), code).Some?
    ensures exists g ::
              g in w.grants && g.browser == browser
                && g.entry == Jar.Entry(code, Jar.Lookup(JarOf(w, browser), code).value)
                        && Honest(w.db, g)
  {
    hide Inv, Honest, Jar.CodesSince, Jar.Capped, Jar.Recency, Jar.LastWriteOf, Jar.Lookup, Jar.CodesOf, GrantsTo;
    var grants := GrantsTo(w.grants, browser);
    Jar.LookupUnwritten(EntriesOf(grants), code);
    var n := LastWriteFound(EntriesOf(grants), code);
    LastWriteExists(EntriesOf(grants), n);
    Jar.LookupFinds(EntriesOf(grants), n);
    GrantsToSound(w.grants, browser, n);
    var m :| 0 <= m < |w.grants| && w.grants[m] == grants[n];
    assert w.grants[m] in w.grants && Honest(w.db, w.grants[m]);
  }

  /** The request votes as the given row: its browser was granted that very row,
      or the row is its account's. */
  ghost predicate Owns(w: World, r: Request, p: PersonId, row: Person) {
    && r.action.CastVote? && row.session == r.action.code && p in w.db.people && w.db.people[p] == row
    && ((exists g :: g in w.grants && g.browser == r.browser && g.entry.id == p && g.row == row)
        || (row.account.Some? && r.action.account == row.account))
  }

  lemma CastsOwn(w: World, r: Request, k: Ballot, choice: Choice)
    requires Faithful(w) && Casts(w.db, Carried(r.action, JarOf(w, r.browser)), k, choice)
    ensures r.action.CastVote? && r.action.option == k.item && r.action.choice == Spelled(choice)
    ensures k.voter in w.db.people && Owns(w, r, k.voter, w.db.people[k.voter])
  {
    hide Inv, Jar.Lookup, JarsRecord;
    var a := Carried(r.action, JarOf(w, r.browser));
    if a.cookie == Some(k.voter) {
      HeldIsGranted(w, r.browser, a.code);
    }
  }

  /** Who cast a vote row: which request it was, and that the row it votes for
      was its sender's. */
  ghost predicate CastByOwner(requests: seq<Request>, n: nat, k: Ballot, choice: Choice, row: Person) {
    && n < |requests|
    && requests[n].action.CastVote? && requests[n].action.option == k.item
       && requests[n].action.choice == Spelled(choice)
    && Owns(Serve(requests[..n]), requests[n], k.voter, row)
  }

  /** Over all runs of many browsers, every vote row was cast, with that choice,
      by a request whose browser had been granted the very row that votes, or
      whose account owns it. */
  lemma {:induction false} VotesAreOwn(requests: seq<Request>, k: Ballot)
    requires k in Serve(requests).db.responses
    ensures var db := Serve(requests).db;
            && k.voter in db.people
            && exists n: nat :: CastByOwner(requests, n, k, db.responses[k], db.people[k.voter])
    decreases |requests|
  {
    hide Inv, Step, Owns, Casts, Granted, Carried, JarsRecord, RowsStand;
    var init, last := requests[..|requests| - 1], |requests| - 1;
    var w, r := Serve(init), requests[last];
    var a := Carried(r.action, JarOf(w, r.browser));
    ServeFaithful(init);
    ServeFaithful(requests);
    VotersSeated(Serve(requests).db, k);
    StepVotes(w.db, a, "");
    var choice := Serve(requests).db.responses[k];
    if k in w.db.responses && choice == w.db.responses[k] {
      VotesAreOwn(init, k);
      VoterStands(w.db, a, k);
      var n: nat :| CastByOwner(init, n, k, choice, w.db.people[k.voter]);
      assert init[..n] == requests[..n] && init[n] == requests[n];
      assert CastByOwner(requests, n, k, choice, Serve(requests).db.people[k.voter]);
    } else {
      CastsOwn(w, r, k, choice);
      VoterStands(w.db, a, k);
      assert requests[..last] == init;
      assert CastByOwner(requests, last, k, choice, Serve(requests).db.people[k.voter]);
    }
  }

  lemma VotersSeated(db: Db, k: Ballot)
    requires Inv(db) && k in db.responses
    ensures k.voter in db.people
  {
    hide Targets, Rosters, Rounds, Newest, Sizes, Sourced, DealOrder, Reported, Tallies, Ballots, Counters, NoneOverdue;
  }

  lemma VoterStands(db: Db, a: Action, k: Ballot)
    requires Inv(db) && k.voter in db.people && k.voter in Step(db, a).0.people
    ensures Step(db, a).0.people[k.voter] == db.people[k.voter]
  {
    hide Targets, Rosters, Rounds, Newest, Sizes, Sourced, DealOrder, Reported, Tallies, Ballots, Counters, NoneOverdue;
    hide Step;
    StepRows(db, a);
  }

  // ------------------------------------------------------------ accounts and hosts

  /** In every reachable database an account has at most one row per session,
      and a live session always seats its host. */
  lemma OneRowPerAccount(actions: seq<Action>, code: Code, account: Account)
    ensures var db := Reached(actions);
            && |RowsOf(db.people, code, account)| <= 1
            && (code in db.sessions && Live(db.sessions[code].status) ==>
                |RowsOf(db.people, code, db.sessions[code].host)| == 1)
  {
    hide Refs, Targets, Rounds, Newest, Sizes, Sourced, DealOrder, Reported, Tallies, Ballots, Counters, NoneOverdue;
    var db := Reached(actions);
    ReachedKeeps(actions);
    AtMostOne(RowsOf(db.people, code, account));
    if code in db.sessions {
      AtMostOne(RowsOf(db.people, code, db.sessions[code].host));
    }
  }

  lemma AtMostOne(s: set<PersonId>)
    requires forall p, q | p in s && q in s :: p == q
    ensures |s| <= 1 && (s != {} ==> |s| == 1)
  {
    if p :| p in s {
      assert s == {p};
    }
  }
}
