/** What the pages and polls show: results, completion, voting progress, and the
    refresh-or-quiet answers. Models `session_page`, `_results_context`,
    `_completion_context`, `results_state_partial` and `card_state_partial` of
    app/routes/sessions.py. */
module Views {
  import opened Prelude
  import opened SessionLogic
  import opened Tables
  import opened Handlers

  /** Rows of the session's kept options, over all its batches. */
  function KeptRows(db: Db, code: Code): map<BatchItemId, BatchItem> {
    map x | x in db.batchItems && InSession(db.batchItems, db.batches, code, x) && IsKept(db.batchItems[x].outcome) ::
      db.batchItems[x]
  }

  function PendingRows(db: Db, b: BatchId): map<BatchItemId, BatchItem> {
    map x | x in db.batchItems && db.batchItems[x].batch == b && db.batchItems[x].outcome.None? :: db.batchItems[x]
  }

  function NotKeptRows(db: Db, b: BatchId): map<BatchItemId, BatchItem> {
    map x | x in db.batchItems && db.batchItems[x].batch == b && db.batchItems[x].outcome == Some(NotKept) ::
      db.batchItems[x]
  }

  /** What the results of batch `b` report: the outcomes, and the progress made. */
  datatype Report = Report(
    kept: map<BatchItemId, BatchItem>, pending: map<BatchItemId, BatchItem>, notKept: map<BatchItemId, BatchItem>,
    progress: seq<Progress>)

  function BatchReport(db: Db, code: Code, b: BatchId): Report
    requires code in db.sessions
  {
    Report(KeptRows(db, code), PendingRows(db, b), NotKeptRows(db, b), TrackProgress(db, code))
  }

  /** The options a results page lists. */
  function Listed(db: Db, code: Code, b: BatchId): set<BatchItemId> {
    set x | x in db.batchItems && (x in KeptRows(db, code) || db.batchItems[x].batch == b)
  }

  /** How an option reads on the page, and the batch number it is sorted under. */
  datatype Line = Line(seq_: nat, name: string)

  function Lines(db: Db, code: Code, b: BatchId): map<BatchItemId, Line> {
    map x | x in Listed(db, code, b) && db.batchItems[x].batch in db.batches && db.batchItems[x].item in db.items ::
      Line(db.batches[db.batchItems[x].batch].seq_, db.items[db.batchItems[x].item].name)
  }

  /** The results page: the report, its lines, and whether the host is offered
      a next batch. */
  datatype Results = Results(report: Report, lines: map<BatchItemId, Line>, nextAvailable: bool)

  function ResultsPage(db: Db, code: Code, b: BatchId): Results
    requires code in db.sessions
  {
    Results(BatchReport(db, code, b), Lines(db, code, b), NextBatchAssembly(db, code).0.Some?)
  }

  /** `b` is the session's most recent batch. Batches follow one another, so it
      is also the last to close. */
  ghost predicate Latest(db: Db, code: Code, b: BatchId) {
    b in BatchesOf(db.batches, code) && forall c | c in BatchesOf(db.batches, code) :: c <= b
  }

  /** The session page is the results page of batch `b`: the session is voting,
      no batch is open and `b` is the most recent one. */
  ghost predicate OnScreen(db: Db, code: Code, b: BatchId) {
    && code in db.sessions && db.sessions[code].status == Voting
    && OpenBatches(db.batches, code) == {} && Latest(db, code, b)
  }

  /** What the session page shows everybody seated, and the host. */
  datatype Screen = ResultsScreen(batch: BatchId, page: Results) | OtherScreen

  ghost function ScreenOf(db: Db, code: Code): Screen {
    if exists b :: OnScreen(db, code, b)
    then var b :| OnScreen(db, code, b); ResultsScreen(b, ResultsPage(db, code, b))
    else OtherScreen
  }

  /** There is one most recent batch, so the screen is its results. */
  lemma ScreenShows(db: Db, code: Code, b: BatchId)
    requires OnScreen(db, code, b)
    ensures ScreenOf(db, code) == ResultsScreen(b, ResultsPage(db, code, b))
  {
    hide ResultsPage;
    forall c | OnScreen(db, code, c) ensures c == b {
      assert c in BatchesOf(db.batches, code) && b in BatchesOf(db.batches, code);
    }
  }

  /** The completion screen: how many rounds and options there were, and the plan. */
  datatype Completion = Completion(rounds: nat, optionsSeen: nat, kept: map<BatchItemId, BatchItem>)

  function CompletionPage(db: Db, code: Code): Completion {
    var seen := set x | x in db.batchItems && InSession(db.batchItems, db.batches, code, x);
    Completion(|BatchesOf(db.batches, code)|, |seen|, KeptRows(db, code))
  }

  datatype Poll = Refresh | Quiet | Unknown

  function PendingCount(db: Db, code: Code, b: BatchId): nat {
    var pending := set x | x in db.batchItems && InSession(db.batchItems, db.batches, code, x)
                           && db.batchItems[x].batch == b && db.batchItems[x].outcome.None?;
    |pending|
  }

  /** The results poll: refresh once another batch is open, the session is over,
      or the shown batch's pending count has moved; quiet otherwise. */
  ghost function ResultsState(db: Db, code: Code, b: BatchId, pending: Option<int>, now: int): (Db, Poll) {
    if code !in db.sessions then (db, Unknown) else
      var current := ExpireIfStale(db, code, now);
      var open := OpenBatch(current.batches, code);
      if (open.Some? && open.value != b) || !Live(current.sessions[code].status) then (current, Refresh)
      else if pending.Some? && b in current.batches && current.batches[b].session == code
              && PendingCount(current, code, b) != pending.value then (current, Refresh)
      else (current, Quiet)
  }

  /** The voting card's poll: quiet only while its batch is the open one. */
  ghost function CardState(db: Db, code: Code, b: BatchId, now: int): (Db, Poll) {
    if code !in db.sessions then (db, Unknown) else
      var current := ExpireIfStale(db, code, now);
      var open := OpenBatch(current.batches, code);
      if open.None? || open.value != b || !Live(current.sessions[code].status) then (current, Refresh)
      else (current, Quiet)
  }

  /** The options a participant still has to answer; the card shows the first. */
  function CardsLeft(db: Db, b: BatchId, p: PersonId): set<BatchItemId> {
    ItemsOf(db.batchItems, b) - Answered(db.responses, ItemsOf(db.batchItems, b), p)
  }
}
