/** The database of the voting engine: one map per table, keyed by primary key,
    and the queries the handlers run on it. Models app/models.py and the query
    helpers of app/routes/sessions.py. A query names only the tables it reads. */
module Tables {
  import opened Prelude
  import opened SessionLogic

  type Account = nat
  type Code = string
  type ItemId = nat
  type PersonId = nat
  type BatchId = nat
  type BatchItemId = nat

  /** Track labels a session can be created with, in the engine's track order. */
  datatype Track = Breakfast | Lunch | Dinner | Picks

  const TRACK_ORDER: seq<Track> := [Breakfast, Lunch, Dinner, Picks]

  datatype Item = Item(
    collection: nat, name: string, types: set<Track>, archived: bool,
    timesOffered: nat, timesKept: nat)

  /** `rolls[n][k]` is what the generator seeded with the session draws at step
      `k` of shuffling a pool of `n` items. */
  datatype Session = Session(
    status: Status, host: Account, collection: Option<nat>, targets: map<Track, nat>,
    rolls: seq<seq<nat>>)

  datatype Person = Person(session: Code, account: Option<Account>, name: string)

  datatype Batch = Batch(session: Code, seq_: nat, track: Track, open: bool)

  datatype Outcome = KeptUnanimous | KeptHost | NotKept

  datatype BatchItem = BatchItem(
    batch: BatchId, item: ItemId, sortOrder: nat, yes: int, no: int, outcome: Option<Outcome>)

  /** The unique key of a vote row: one answer per option and participant. */
  datatype Ballot = Ballot(item: BatchItemId, voter: PersonId)

  datatype Choice = Yes | No

  /** A choice as the vote form sends it. */
  function Spelled(c: Choice): string {
    if c == Yes then "yes" else "no"
  }

  /** `activity` is the session table's last_activity_at column, kept apart from
      the rest of the row because only the expiry test reads it. */
  datatype Db = Db(
    items: map<ItemId, Item>, nextItem: nat,
    sessions: map<Code, Session>, activity: map<Code, int>,
    people: map<PersonId, Person>, nextPerson: nat,
    batches: map<BatchId, Batch>, nextBatch: nat,
    batchItems: map<BatchItemId, BatchItem>, nextBatchItem: nat,
    responses: map<Ballot, Choice>)

  const EMPTY_DB := Db(map[], 0, map[], map[], map[], 0, map[], 0, map[], 0, map[])

  predicate Live(s: Status) {
    s == Lobby || s == Voting
  }

  // ---------------------------------------------------------------- roster

  function Roster(people: map<PersonId, Person>, code: Code): set<PersonId> {
    set p | p in people && people[p].session == code
  }

  function RowsOf(people: map<PersonId, Person>, code: Code, account: Account): set<PersonId> {
    set p | p in people && people[p].session == code && people[p].account == Some(account)
  }

  // ---------------------------------------------------------------- batches

  function BatchesOf(batches: map<BatchId, Batch>, code: Code): set<BatchId> {
    set b | b in batches && batches[b].session == code
  }

  function OpenBatches(batches: map<BatchId, Batch>, code: Code): set<BatchId> {
    set b | b in batches && batches[b].session == code && batches[b].open
  }

  /** The session's open batch; `Invariants.OneOpenBatch` shows the choice is forced. */
  ghost function OpenBatch(batches: map<BatchId, Batch>, code: Code): (b: Option<BatchId>)
    ensures b.Some? ==> b.value in OpenBatches(batches, code)
    ensures b.None? ==> OpenBatches(batches, code) == {}
  {
    if OpenBatches(batches, code) == {} then None
    else var b :| b in OpenBatches(batches, code); Some(b)
  }

  function SeqsOf(batches: map<BatchId, Batch>, code: Code): set<nat> {
    set b | b in batches && batches[b].session == code :: batches[b].seq_
  }

  function ItemsOf(batchItems: map<BatchItemId, BatchItem>, b: BatchId): set<BatchItemId> {
    set x | x in batchItems && batchItems[x].batch == b
  }

  /** Option `x` was dealt in some batch of the session. */
  predicate InSession(batchItems: map<BatchItemId, BatchItem>, batches: map<BatchId, Batch>, code: Code, x: BatchItemId)
  {
    && x in batchItems
    && batchItems[x].batch in batches
    && batches[batchItems[x].batch].session == code
  }

  function Offered(batchItems: map<BatchItemId, BatchItem>, batches: map<BatchId, Batch>, code: Code): set<ItemId> {
    set x | x in batchItems && InSession(batchItems, batches, code, x) :: batchItems[x].item
  }

  // ---------------------------------------------------------------- votes

  /** Participants with a 'yes' row for option `x`; a row is keyed by option and
      participant, so this is as large as the number of such rows. */
  function YesVoters(responses: map<Ballot, Choice>, x: BatchItemId): set<PersonId> {
    set k | k in responses && k.item == x && responses[k] == Yes :: k.voter
  }

  /** The options of a batch that participant `p` has answered. */
  function Answered(responses: map<Ballot, Choice>, options: set<BatchItemId>, p: PersonId): set<BatchItemId> {
    set x | x in options && Ballot(x, p) in responses
  }

  /** How many of the roster have answered every option. */
  function Finished(responses: map<Ballot, Choice>, options: set<BatchItemId>, roster: set<PersonId>): nat {
    var done := set p | p in roster && |Answered(responses, options, p)| == |options|;
    |done|
  }

  /** The two numbers of the "voters finished" line. */
  ghost function VotingProgress(db: Db, code: Code): (int, int) {
    var roster := Roster(db.people, code);
    match OpenBatch(db.batches, code)
    case None => (|roster|, |roster|)
    case Some(b) =>
      var options := ItemsOf(db.batchItems, b);
      if |options| == 0 then (|roster|, |roster|)
      else (Finished(db.responses, options, roster), |roster|)
  }

  // ---------------------------------------------------------------- outcomes

  predicate IsKept(outcome: Option<Outcome>) {
    outcome == Some(KeptUnanimous) || outcome == Some(KeptHost)
  }

  function Kept(batchItems: map<BatchItemId, BatchItem>, batches: map<BatchId, Batch>, code: Code,
                track: Track): set<BatchItemId>
  {
    set x | x in batchItems && InSession(batchItems, batches, code, x)
            && batches[batchItems[x].batch].track == track && IsKept(batchItems[x].outcome)
  }

  /** Majority items of closed batches still waiting for the host. */
  function Undecided(batchItems: map<BatchItemId, BatchItem>, batches: map<BatchId, Batch>,
                     code: Code): set<BatchItemId>
  {
    set x | x in batchItems && InSession(batchItems, batches, code, x)
            && !batches[batchItems[x].batch].open && batchItems[x].outcome.None?
  }

  /** Times item `i` was put before a roster that then closed the batch. */
  function OfferRows(batchItems: map<BatchItemId, BatchItem>, batches: map<BatchId, Batch>, i: ItemId): set<BatchItemId>
  {
    set x | x in batchItems && batchItems[x].item == i
            && batchItems[x].batch in batches && !batches[batchItems[x].batch].open
  }

  function KeepRows(batchItems: map<BatchItemId, BatchItem>, batches: map<BatchId, Batch>, i: ItemId): set<BatchItemId>
  {
    set x | x in batchItems && batchItems[x].item == i && IsKept(batchItems[x].outcome)
            && batchItems[x].batch in batches && !batches[batchItems[x].batch].open
  }

  // ---------------------------------------------------------------- targets

  datatype Progress = Progress(track: Track, target: nat, kept: nat, remaining: nat, met: bool)

  function ProgressRow(db: Db, code: Code, track: Track): Progress
    requires code in db.sessions && track in db.sessions[code].targets
  {
    var target := db.sessions[code].targets[track];
    var kept := |Kept(db.batchItems, db.batches, code, track)|;
    Progress(track, target, kept, if kept >= target then 0 else target - kept, kept >= target)
  }

  /** One row per target, in track order. */
  function TrackProgress(db: Db, code: Code, order: seq<Track> := TRACK_ORDER): seq<Progress>
    requires code in db.sessions
  {
    if order == [] then []
    else (if order[0] in db.sessions[code].targets then [ProgressRow(db, code, order[0])] else [])
         + TrackProgress(db, code, order[1..])
  }

  function FirstTrack(targets: map<Track, nat>, order: seq<Track> := TRACK_ORDER): (t: Option<Track>)
    ensures t.Some? ==> t.value in targets && targets[t.value] > 0 && t.value in order
    ensures t.None? ==> forall k | k in order && k in targets :: targets[k] == 0
  {
    if order == [] then None
    else if order[0] in targets && targets[order[0]] > 0 then Some(order[0])
    else FirstTrack(targets, order[1..])
  }
}
