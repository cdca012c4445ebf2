/** What each request does to the database, as functions from the state before
    to the state after and the reply. One function per POST handler of
    app/routes/sessions.py, plus the library edits that touch items. Every
    handler is one atomic step and begins with the lazy expiry. */
module Handlers {
  import opened Prelude
  import opened SessionLogic
  import opened Tables
  import opened Pool

  /** HTTP answers, reduced to what tells the caller how the request went. */
  datatype Reply =
    | SeeSession      // 303 to the session page, whatever it now shows
    | Unauthorized    // 401
    | Forbidden       // 403
    | NotFound        // 404
    | BadRequest      // 400, or a form shown again with a 400
    | JoinPage        // the waiting or join page
    | EndedPage
    | ServerError     // no free session code

  const EXPIRY_SECONDS: int := 24 * 60 * 60
  const TARGET_CAP: int := 20

  // ------------------------------------------------------------ table writes

  function Touch(db: Db, code: Code, now: int): Db {
    db.(activity := db.activity[code := now])
  }

  function SetStatus(db: Db, code: Code, status: Status): Db
    requires code in db.sessions
  {
    db.(sessions := db.sessions[code := db.sessions[code].(status := status)])
  }

  /** DELETE the session's participant rows. */
  function DropRoster(db: Db, code: Code): Db {
    db.(people := map p | p in db.people && db.people[p].session != code :: db.people[p])
  }

  /** DELETE the vote rows of the given options. */
  function DropBallots(db: Db, options: set<BatchItemId>): Db {
    db.(responses := map k | k in db.responses && k.item !in options :: db.responses[k])
  }

  predicate Stale(db: Db, code: Code, now: int)
    requires code in db.sessions
  {
    Live(db.sessions[code].status) && code in db.activity && db.activity[code] < now - EXPIRY_SECONDS
  }

  function OpenOptions(db: Db, code: Code): set<BatchItemId> {
    set x | x in db.batchItems && InSession(db.batchItems, db.batches, code, x)
      && db.batches[db.batchItems[x].batch].open
  }

  /** An abandoned session expires; its open batch stays open and unreported. */
  function ExpireIfStale(db: Db, code: Code, now: int): Db
    requires code in db.sessions
  {
    if !Stale(db, code, now) then db
    else DropRoster(DropBallots(SetStatus(db, code, Expired), OpenOptions(db, code)), code)
  }

  /** One option row per chosen item, numbered from `first`, in deal order. */
  function NewOptions(b: BatchId, first: BatchItemId, chosen: seq<ItemId>): (rows: map<BatchItemId, BatchItem>)
    ensures forall x :: x in rows <==> first <= x < first + |chosen|
    ensures forall x | x in rows :: rows[x] == BatchItem(b, chosen[x - first], x - first, 0, 0, None)
  {
    if chosen == [] then map[]
    else
      var n := |chosen| - 1;
      NewOptions(b, first, chosen[..n])[first + n := BatchItem(b, chosen[n], n, 0, 0, None)]
  }

  /** Adds a batch, open, with the chosen items as its options in order. */
  function OpenRound(db: Db, code: Code, track: Track, chosen: seq<ItemId>): Db {
    var b := db.nextBatch;
    var first := db.nextBatchItem;
    db.(batches := db.batches[b := Batch(code, NextSeq(SeqsOf(db.batches, code)), track, true)],
        nextBatch := b + 1,
        batchItems := db.batchItems + NewOptions(b, first, chosen),
        nextBatchItem := first + |chosen|)
  }

  /** An option's row once its batch is closed: the aggregates, and an outcome
      unless the host still has to decide. */
  function Tallied(row: BatchItem, yes: int, roster: int): BatchItem {
    var tally := Tally(yes, roster - yes);
    var outcome := match Classify(tally, roster)
      case AgreedByAll => Some(KeptUnanimous)
      case Rejected => Some(NotKept)
      case Majority => row.outcome;
    row.(yes := tally.yes, no := tally.no, outcome := outcome)
  }

  /** The batch item table with the closing batch's options tallied. */
  function TallyTable(batchItems: map<BatchItemId, BatchItem>, responses: map<Ballot, Choice>,
                      options: set<BatchItemId>, roster: int): map<BatchItemId, BatchItem>
  {
    map x | x in batchItems ::
      if x in options then Tallied(batchItems[x], |YesVoters(responses, x)|, roster) else batchItems[x]
  }

  /** Options of the closing batch that show item `i`, and those kept outright. */
  function Shown(tallied: map<BatchItemId, BatchItem>, options: set<BatchItemId>, i: ItemId): set<BatchItemId> {
    set x | x in options && x in tallied && tallied[x].item == i
  }

  function ShownAndKept(tallied: map<BatchItemId, BatchItem>, options: set<BatchItemId>, i: ItemId): set<BatchItemId> {
    set x | x in options && x in tallied && tallied[x].item == i && tallied[x].outcome == Some(KeptUnanimous)
  }

  /** The item table with the closing batch's offers and unanimous keeps counted. */
  function CountTable(items: map<ItemId, Item>, tallied: map<BatchItemId, BatchItem>,
                      options: set<BatchItemId>): map<ItemId, Item>
  {
    map i | i in items ::
      items[i].(timesOffered := items[i].timesOffered + |Shown(tallied, options, i)|,
                timesKept := items[i].timesKept + |ShownAndKept(tallied, options, i)|)
  }

  function ShutTable(batches: map<BatchId, Batch>, b: BatchId): map<BatchId, Batch>
    requires b in batches
  {
    batches[b := batches[b].(open := false)]
  }

  /** Closing batch `b`: outcomes rolled up, item counters advanced, every
      per-person row of the batch deleted. Nothing happens to a closed batch. */
  function CloseRound(db: Db, code: Code, b: BatchId): Db
    requires b in db.batches
  {
    if !db.batches[b].open then db else
      var options := ItemsOf(db.batchItems, b);
      var tallied := TallyTable(db.batchItems, db.responses, options, |Roster(db.people, code)|);
      DropBallots(
        db.(batchItems := tallied, items := CountTable(db.items, tallied, options),
            batches := ShutTable(db.batches, b)),
        options)
  }

  /** Writes NOT_KEPT on the given options. */
  function PassAll(db: Db, ids: set<BatchItemId>): Db {
    db.(batchItems := map x | x in db.batchItems ::
          if x in ids then db.batchItems[x].(outcome := Some(NotKept)) else db.batchItems[x])
  }

  // ------------------------------------------------------------ reads

  /** First track in order that still needs picks and has un-offered items. */
  function NextBatchAssembly(db: Db, code: Code, order: seq<Track> := TRACK_ORDER): (Option<Track>, seq<ItemId>)
    requires code in db.sessions
  {
    if order == [] then (None, [])
    else
      var s, track := db.sessions[code], order[0];
      if track in s.targets && ProgressRow(db, code, track).remaining > 0 then
        var chosen := AssembleBatch(PoolOf(db.items, db.nextItem, s, track), Offered(db.batchItems, db.batches, code));
        if chosen != [] then (Some(track), chosen) else NextBatchAssembly(db, code, order[1..])
      else NextBatchAssembly(db, code, order[1..])
  }

  /** The participant behind a request: the cookie's row if it is still a row of
      this session, else the signed-in account's own row. */
  ghost function ViewerParticipant(people: map<PersonId, Person>, code: Code,
                                   cookie: Option<PersonId>, account: Option<Account>): (p: Option<PersonId>)
    ensures p.Some? ==> p.value in Roster(people, code)
  {
    if cookie.Some? && cookie.value in people && people[cookie.value].session == code then cookie
    else if account.Some? then ExistingRow(people, code, account.value)
    else None
  }

  ghost function ExistingRow(people: map<PersonId, Person>, code: Code, account: Account): (p: Option<PersonId>)
    ensures p.Some? ==> p.value in RowsOf(people, code, account)
    ensures p.None? ==> RowsOf(people, code, account) == {}
  {
    if RowsOf(people, code, account) == {} then None
    else var p :| p in RowsOf(people, code, account); Some(p)
  }

  // ------------------------------------------------------------ the host guard

  /** What every host action does first: look the session up, expire it if
      stale, require its host, and turn stale screens of ended sessions away. */
  datatype Gate = Admitted(db: Db) | Turned(db: Db, reply: Reply)

  function HostGate(db: Db, code: Code, account: Option<Account>, now: int): (g: Gate)
    ensures g.Admitted? ==> code in g.db.sessions && Live(g.db.sessions[code].status) && g.db == db
  {
    if code !in db.sessions then Turned(db, NotFound) else
      var current := ExpireIfStale(db, code, now);
      var s := current.sessions[code];
      if account.None? then Turned(current, Unauthorized)
      else if s.host != account.value then Turned(current, Forbidden)
      else if !Live(s.status) then Turned(current, SeeSession)
      else Admitted(current)
  }

  // ------------------------------------------------------------ sessions

  function MealTargets(breakfasts: int, lunches: int, dinners: int): map<Track, nat> {
    (if breakfasts > 0 then map[Breakfast := breakfasts] else map[])
    + (if lunches > 0 then map[Lunch := lunches] else map[])
    + (if dinners > 0 then map[Dinner := dinners] else map[])
  }

  function ChosenTargets(collection: Option<nat>, breakfasts: int, lunches: int, dinners: int,
                         picks: int): Result<map<Track, nat>>
  {
    if breakfasts > TARGET_CAP || lunches > TARGET_CAP || dinners > TARGET_CAP || picks > TARGET_CAP
    then Err("Targets are capped at 20.")
    else if collection.Some? then
      var targets := MealTargets(breakfasts, lunches, dinners);
      if targets == map[] then Err("Set at least one target.") else Ok(targets)
    else if picks <= 0 then Err("Picks must be at least 1.")
    else Ok(map[Picks := picks])
  }

  /** Creates a lobby and seats its host. Returns the code used, and the host's row. */
  function CreateSession(db: Db, host: Account, hostName: string, collection: Option<nat>,
                         breakfasts: int, lunches: int, dinners: int, picks: int,
                         draws: seq<Code>, rolls: seq<seq<nat>>, now: int): (Db, Reply, Option<Code>)
  {
    var targets := ChosenTargets(collection, breakfasts, lunches, dinners, picks);
    if targets.Err? then (db, BadRequest, None) else
      var code := MakeCode(db.sessions.Keys, draws);
      if code.None? then (db, ServerError, None) else
        (db.(sessions := db.sessions[code.value := Session(Lobby, host, collection, targets.value, rolls)],
             activity := db.activity[code.value := now],
             people := db.people[db.nextPerson := Person(code.value, Some(host), hostName)],
             nextPerson := db.nextPerson + 1),
         SeeSession, code)
  }

  /** Joins the lobby; also returns the row the browser's cookie is pointed at. */
  ghost function JoinSession(db: Db, code: Code, account: Option<Account>, name: string,
                             now: int): (Db, Reply, Option<PersonId>)
  {
    if code !in db.sessions then (db, NotFound, None) else
      var current := ExpireIfStale(db, code, now);
      var s := current.sessions[code];
      if !Live(s.status) then (current, EndedPage, None)
      else if account.Some? && ExistingRow(current.people, code, account.value).Some? then
        (current, SeeSession, ExistingRow(current.people, code, account.value))
      else if s.status == Voting then (current, JoinPage, None)
      else if name == "" then (current, BadRequest, None)
      else
        (Touch(current.(people := current.people[current.nextPerson := Person(code, account, name)],
                      nextPerson := current.nextPerson + 1), code, now),
         SeeSession, Some(current.nextPerson))
  }

  /** Starts voting, dealing the first batch whenever no batch is open. */
  ghost function StartVoting(db: Db, code: Code, account: Option<Account>, now: int): (Db, Reply) {
    var gate := HostGate(db, code, account, now);
    if gate.Turned? then (gate.db, gate.reply) else StartAdmitted(db, code, now)
  }

  ghost function StartAdmitted(db: Db, code: Code, now: int): (Db, Reply)
    requires code in db.sessions
  {
    var s := db.sessions[code];
    var target := ApplyTransition(s.status, Voting);
    if target.Err? then (db, SeeSession)
    else if s.collection.Some? && OpenBatch(db.batches, code).None? then
      var track := FirstTrack(s.targets);
      if track.None? then (db, BadRequest) else
        var chosen := AssembleBatch(PoolOf(db.items, db.nextItem, s, track.value), {});
        if chosen == [] then (db, BadRequest)
        else (Touch(SetStatus(OpenRound(db, code, track.value, chosen), code, target.value), code, now), SeeSession)
    else (Touch(SetStatus(db, code, target.value), code, now), SeeSession)
  }

  /** One vote row, and the automatic close once everybody has answered everything. */
  function RecordVote(db: Db, code: Code, b: BatchId, p: PersonId, x: BatchItemId, choice: Choice): Db
    requires b in db.batches
  {
    if Ballot(x, p) in db.responses then db else
      var cast := db.(responses := db.responses[Ballot(x, p) := choice]);
      if EverybodyFinished(cast, code, b) then CloseRound(cast, code, b) else cast
  }

  /** The auto-close test, on the counts the handler computes. */
  predicate EverybodyFinished(db: Db, code: Code, b: BatchId) {
    var roster := Roster(db.people, code);
    var options := ItemsOf(db.batchItems, b);
    var finished := if |options| == 0 then |roster| else Finished(db.responses, options, roster);
    |roster| > 0 && finished >= |roster|
  }

  ghost function Vote(db: Db, code: Code, cookie: Option<PersonId>, account: Option<Account>,
                      x: BatchItemId, choice: string, now: int): (Db, Reply)
  {
    if code !in db.sessions then (db, NotFound) else
      var current := ExpireIfStale(db, code, now);
      var viewer := ViewerParticipant(current.people, code, cookie, account);
      var open := OpenBatch(current.batches, code);
      if !Live(current.sessions[code].status) || viewer.None? || open.None? then (current, SeeSession)
      else if x !in current.batchItems then (current, NotFound)
      else if current.batchItems[x].batch != open.value then
        (current, if InSession(current.batchItems, current.batches, code, x) then SeeSession else NotFound)
      else if choice != "yes" && choice != "no" then (current, BadRequest)
      else
        var c := if choice == "yes" then Yes else No;
        (Touch(RecordVote(current, code, open.value, viewer.value, x, c), code, now), SeeSession)
  }

  /** The host closes the open batch by hand. */
  ghost function CloseByHand(db: Db, code: Code, account: Option<Account>, now: int): (Db, Reply) {
    var gate := HostGate(db, code, account, now);
    if gate.Turned? then (gate.db, gate.reply) else
      var open := OpenBatch(db.batches, code);
      if open.None? then (db, SeeSession)
      else (Touch(CloseRound(db, code, open.value), code, now), SeeSession)
  }

  /** The host keeps or passes one majority item. */
  function Decide(db: Db, code: Code, account: Option<Account>, b: BatchId, x: BatchItemId, keep: bool,
                  now: int): (Db, Reply)
  {
    var gate := HostGate(db, code, account, now);
    if gate.Turned? then (gate.db, gate.reply)
    else if b !in db.batches || db.batches[b].session != code then (db, NotFound)
    else if x !in db.batchItems || db.batchItems[x].batch != b then (db, NotFound)
    else if db.batches[b].open || db.batchItems[x].outcome.Some? then (db, SeeSession)
    else (Touch(WriteDecision(db, x, keep), code, now), SeeSession)
  }

  function WriteDecision(db: Db, x: BatchItemId, keep: bool): Db
    requires x in db.batchItems
  {
    var i := db.batchItems[x].item;
    var decided :=
      db.(batchItems := db.batchItems[x := db.batchItems[x].(outcome := Some(if keep then KeptHost else NotKept))]);
    if keep && i in db.items
    then decided.(items := db.items[i := db.items[i].(timesKept := db.items[i].timesKept + 1)])
    else decided
  }

  /** Passes what the host left undecided and opens the next batch, if any. */
  ghost function NextBatch(db: Db, code: Code, account: Option<Account>, now: int): (Db, Reply) {
    var gate := HostGate(db, code, account, now);
    if gate.Turned? then (gate.db, gate.reply)
    else if db.sessions[code].status != Voting || OpenBatch(db.batches, code).Some? then (db, SeeSession)
    else
      var passed := PassAll(db, Undecided(db.batchItems, db.batches, code));
      var (track, chosen) := NextBatchAssembly(db, code);
      if track.None? then (passed, SeeSession)
      else (Touch(OpenRound(passed, code, track.value, chosen), code, now), SeeSession)
  }

  /** Ends the session. The undecided items are looked up in the stored rows,
      where a batch this very request has just closed still reads as open. */
  ghost function FinishSession(db: Db, code: Code, account: Option<Account>, now: int): (Db, Reply) {
    var gate := HostGate(db, code, account, now);
    if gate.Turned? then (gate.db, gate.reply) else
      var open := OpenBatch(db.batches, code);
      var closed := if open.Some? then Touch(CloseRound(db, code, open.value), code, now) else db;
      var passed := PassAll(closed, Undecided(db.batchItems, db.batches, code));
      (DropRoster(SetStatus(passed, code, Complete), code), SeeSession)
  }

  /** The host removes a lobby participant, never the host's own row. */
  function RemoveParticipant(db: Db, code: Code, account: Option<Account>, p: PersonId, now: int): (Db, Reply) {
    var gate := HostGate(db, code, account, now);
    if gate.Turned? then (gate.db, gate.reply) else
      var s := db.sessions[code];
      if s.status != Lobby then (db, SeeSession)
      else if p !in Roster(db.people, code) then (db, SeeSession)
      else if db.people[p].account == Some(s.host) then (db, BadRequest)
      else (Touch(db.(people := db.people - {p}), code, now), SeeSession)
  }

  /** Any page or poll: only the lazy expiry writes. */
  function Look(db: Db, code: Code, now: int): (Db, Reply) {
    if code !in db.sessions then (db, NotFound)
    else (ExpireIfStale(db, code, now), SeeSession)
  }

  // ------------------------------------------------------------ runs

  datatype Action =
    | AddItem(collection: nat, itemName: string, types: set<Track>)
    | EditItem(item: ItemId, itemName: string, types: set<Track>)
    | ArchiveItem(item: ItemId, archived: bool)
    | Create(host: Account, hostName: string, inCollection: Option<nat>,
             breakfasts: int, lunches: int, dinners: int, picks: int,
             draws: seq<Code>, rolls: seq<seq<nat>>, now: int)
    | Join(code: Code, account: Option<Account>, displayName: string, now: int)
    | Start(code: Code, account: Option<Account>, now: int)
    | CastVote(code: Code, cookie: Option<PersonId>, account: Option<Account>, option: BatchItemId, choice: string,
               now: int)
    | Close(code: Code, account: Option<Account>, now: int)
    | KeepOrPass(code: Code, account: Option<Account>, batch: BatchId, option: BatchItemId, keep: bool, now: int)
    | Next(code: Code, account: Option<Account>, now: int)
    | Finish(code: Code, account: Option<Account>, now: int)
    | Remove(code: Code, account: Option<Account>, person: PersonId, now: int)
    | View(code: Code, now: int)

  /** Library edits never touch the counters, and items are never deleted. */
  function EditLibrary(db: Db, a: Action): Db
    requires a.AddItem? || a.EditItem? || a.ArchiveItem?
  {
    match a
    case AddItem(collection, name, types) =>
      db.(items := db.items[db.nextItem := Item(collection, name, types, false, 0, 0)], nextItem := db.nextItem + 1)
    case EditItem(i, name, types) =>
      if i in db.items then db.(items := db.items[i := db.items[i].(name := name, types := types)]) else db
    case ArchiveItem(i, archived) =>
      if i in db.items then db.(items := db.items[i := db.items[i].(archived := archived)]) else db
  }

  ghost function Step(db: Db, a: Action): (Db, Reply) {
    match a
    case AddItem(_, _, _) => (EditLibrary(db, a), SeeSession)
    case EditItem(_, _, _) => (EditLibrary(db, a), SeeSession)
    case ArchiveItem(_, _) => (EditLibrary(db, a), SeeSession)
    case Create(host, name, coll, br, lu, di, pi, draws, rolls, now) =>
      var (after, reply, _) := CreateSession(db, host, name, coll, br, lu, di, pi, draws, rolls, now);
      (after, reply)
    case Join(code, account, name, now) =>
      var (after, reply, _) := JoinSession(db, code, account, name, now);
      (after, reply)
    case Start(code, account, now) => StartVoting(db, code, account, now)
    case CastVote(code, cookie, account, x, choice, now) => Vote(db, code, cookie, account, x, choice, now)
    case Close(code, account, now) => CloseByHand(db, code, account, now)
    case KeepOrPass(code, account, b, x, keep, now) => Decide(db, code, account, b, x, keep, now)
    case Next(code, account, now) => NextBatch(db, code, account, now)
    case Finish(code, account, now) => FinishSession(db, code, account, now)
    case Remove(code, account, p, now) => RemoveParticipant(db, code, account, p, now)
    case View(code, now) => Look(db, code, now)
  }

  /** The state after a whole run of requests. */
  ghost function Run(db: Db, actions: seq<Action>): Db
    decreases |actions|
  {
    if actions == [] then db
    else Step(Run(db, actions[..|actions| - 1]), actions[|actions| - 1]).0
  }
}
