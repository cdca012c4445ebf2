/** The numbers a session leaves behind: tallies over a frozen roster, and the
    offer and keep counters the collection report turns into reject rates.
    Models `_close_batch` of app/routes/sessions.py and app/routes/reports.py. */
module Reports {
  import opened Prelude
  import opened SessionLogic
  import opened Tables
  import opened Handlers
  import opened Invariants
  import opened Preservation
  import opened Runs

  // ------------------------------------------------------------ frozen roster

  /** Every option a session has closed was counted against one and the same
      roster, and no count leaves it. */
  lemma RosterIsFrozen(actions: seq<Action>, code: Code, x: BatchItemId, y: BatchItemId)
    ensures var db := Reached(actions);
            ClosedIn(db.batches, db.batchItems, code, x) && ClosedIn(db.batches, db.batchItems, code, y) ==>
            && Votes(db.batchItems[x]) == Votes(db.batchItems[y])
            && 0 <= db.batchItems[x].yes <= Votes(db.batchItems[y])
            && (code in db.sessions && db.sessions[code].status == Voting ==>
                  Votes(db.batchItems[x]) == |Roster(db.people, code)|)
  {
    hide Refs, Targets, Rosters, Rounds, Newest, Sizes, Sourced, DealOrder, Ballots, Counters, NoneOverdue;
    ReachedKeeps(actions);
  }

  /** The tally a close writes is what the manual-close rule computes; its range
      error never arises. */
  lemma CloseResolvesMissing(db: Db, code: Code, b: BatchId, x: BatchItemId)
    requires Refs(db) && Ballots(db.sessions, db.people, db.batches, db.batchItems, db.responses)
    requires b in OpenBatches(db.batches, code) && x in ItemsOf(db.batchItems, b)
    ensures var row := CloseRound(db, code, b).batchItems[x];
            ResolveMissingAsNo(|Roster(db.people, code)|, |YesVoters(db.responses, x)|) == Ok(Tally(row.yes, row.no))
  {
    YesWithinRoster(db, x);
  }

  function Words(responses: map<Ballot, Choice>, ks: seq<Ballot>): seq<string>
    requires forall k | k in ks :: k in responses
  {
    seq(|ks|, n requires 0 <= n < |ks| => Spelled(responses[ks[n]]))
  }

  /** Voters of the listed rows who chose `c`. */
  function Choosing(responses: map<Ballot, Choice>, ks: seq<Ballot>, c: Choice): set<PersonId>
    requires forall k | k in ks :: k in responses
  {
    set k | k in ks && responses[k] == c :: k.voter
  }

  lemma {:induction false} TallyOfRows(responses: map<Ballot, Choice>, ks: seq<Ballot>, x: BatchItemId)
    requires NoRepeats(ks) && forall k | k in ks :: k in responses && k.item == x
    ensures TallyResponses(Words(responses, ks)) == Tally(|Choosing(responses, ks, Yes)|, |Choosing(responses, ks, No)|)
  {
    if ks != [] {
      var k, rest := ks[0], ks[1..];
      TallyOfRows(responses, rest, x);
      assert Words(responses, ks)[1..] == Words(responses, rest);
      forall q | q in rest ensures q.voter != k.voter {
        assert q != k && q == Ballot(x, q.voter) && k == Ballot(x, k.voter);
      }
      forall c: Choice
        ensures |Choosing(responses, ks, c)| == |Choosing(responses, rest, c)| + if responses[k] == c then 1 else 0
      {
        var head: set<PersonId> := if responses[k] == c then {k.voter} else {};
        forall v ensures v in Choosing(responses, ks, c) <==> v in Choosing(responses, rest, c) || v in head {
          if v in Choosing(responses, rest, c) {
            var q :| q in rest && responses[q] == c && q.voter == v;
            assert q in ks;
          }
        }
        SplitSize(Choosing(responses, ks, c), Choosing(responses, rest, c), head);
      }
    }
  }

  /** When everybody has answered, the written tally is also the count of the
      choices actually recorded, in whatever order the rows are listed. */
  lemma AutoCloseCountsChoices(db: Db, code: Code, b: BatchId, x: BatchItemId, ks: seq<Ballot>)
    requires Refs(db) && Ballots(db.sessions, db.people, db.batches, db.batchItems, db.responses)
    requires b in OpenBatches(db.batches, code) && x in ItemsOf(db.batchItems, b)
    requires AllAnswered(db.responses, ItemsOf(db.batchItems, b), Roster(db.people, code))
    requires NoRepeats(ks) && forall k :: k in ks <==> k in db.responses && k.item == x
    ensures var row := CloseRound(db, code, b).batchItems[x];
            TallyResponses(Words(db.responses, ks)) == Tally(row.yes, row.no)
  {
    TallyOfRows(db.responses, ks, x);
    assert Choosing(db.responses, ks, Yes) == YesVoters(db.responses, x);
    var no := Choosing(db.responses, ks, No);
    forall p ensures p in Roster(db.people, code) <==> p in YesVoters(db.responses, x) || p in no {
      if p in Roster(db.people, code) {
        assert Ballot(x, p) in db.responses && Ballot(x, p) in ks;
      }
    }
    forall p | p in YesVoters(db.responses, x) ensures p !in no {
      assert forall k | k in ks && k.voter == p :: k == Ballot(x, p);
    }
    SplitSize(Roster(db.people, code), YesVoters(db.responses, x), no);
  }

  // ------------------------------------------------------------ reject rates

  datatype RateRow = RateRow(offered: int, kept: int, rejected: int, rate: real, percent: int)

  /** Rounds to the nearest integer, halves to the even one. */
  function RoundHalfEven(r: real): int {
    var down := r.Floor;
    if r - down as real < 0.5 then down
    else if r - down as real > 0.5 then down + 1
    else if down % 2 == 0 then down else down + 1
  }

  function MakeRow(offered: int, kept: int): RateRow
    requires offered > 0
  {
    var rejected := offered - kept;
    var rate := rejected as real / offered as real;
    RateRow(offered, kept, rejected, rate, RoundHalfEven(rate * 100.0))
  }

  /** `n` is nearest to `r`, and the even one of two that are equally near. */
  predicate Nearest(r: real, n: int) {
    -0.5 <= r - n as real <= 0.5 && (r - n as real == 0.5 || r - n as real == -0.5 ==> n % 2 == 0)
  }

  lemma RoundHalfEvenNearest(r: real)
    ensures Nearest(r, RoundHalfEven(r))
  {
  }

  lemma RoundHalfEvenBounds(r: real, low: int, high: int)
    requires low as real <= r <= high as real
    ensures low <= RoundHalfEven(r) <= high
  {
  }

  lemma Proportion(rate: real, part: real, whole: real)
    requires whole > 0.0 && rate * whole == part && 0.0 <= part <= whole
    ensures 0.0 <= rate <= 1.0 && (rate == 0.0 <==> part == 0.0) && (rate == 1.0 <==> part == whole)
  {
    ScalingKeepsOrder(rate, 0.0, whole);
    ScalingKeepsOrder(0.0, rate, whole);
    ScalingKeepsOrder(rate, 1.0, whole);
    ScalingKeepsOrder(1.0, rate, whole);
  }

  lemma ScalingKeepsOrder(low: real, high: real, whole: real)
    requires whole > 0.0
    ensures low < high ==> low * whole < high * whole
  {
    if low < high {
      assert (high - low) * whole > 0.0;
    }
  }

  lemma RateInRange(offered: int, kept: int)
    requires 0 < offered && 0 <= kept <= offered
    ensures var row := MakeRow(offered, kept);
            && 0.0 <= row.rate <= 1.0 && 0 <= row.percent <= 100
            && (row.rate == 0.0 <==> kept == offered) && (row.rate == 1.0 <==> kept == 0)
            && row.offered == offered && row.kept == kept && row.rejected == offered - kept
            && row.rate * offered as real == (offered - kept) as real && Nearest(row.rate * 100.0, row.percent)
  {
    hide RoundHalfEven;
    var rate := MakeRow(offered, kept).rate;
    RateDivides(offered, kept);
    Proportion(rate, (offered - kept) as real, offered as real);
    RoundHalfEvenBounds(rate * 100.0, 0, 100);
    RoundHalfEvenNearest(rate * 100.0);
  }

  lemma RateDivides(offered: int, kept: int)
    requires offered > 0
    ensures MakeRow(offered, kept).rate * offered as real == (offered - kept) as real
  {
    hide RoundHalfEven;
  }

  /** An item is kept at most as often as it was offered. */
  lemma KeepsWithinOffers(batches: map<BatchId, Batch>, batchItems: map<BatchItemId, BatchItem>, i: ItemId)
    ensures KeepRows(batchItems, batches, i) <= OfferRows(batchItems, batches, i)
    ensures |KeepRows(batchItems, batches, i)| <= |OfferRows(batchItems, batches, i)|
    ensures |OfferRows(batchItems, batches, i) - KeepRows(batchItems, batches, i)|
            == |OfferRows(batchItems, batches, i)| - |KeepRows(batchItems, batches, i)|
  {
    SubsetSize(KeepRows(batchItems, batches, i), OfferRows(batchItems, batches, i));
    var offers, keeps := OfferRows(batchItems, batches, i), KeepRows(batchItems, batches, i);
    SplitSize(offers, offers - keeps, keeps);
  }

  /** The by-item report over any run: counters count rows of closed batches,
      the rejected number is exactly the closed offers that were not kept, and
      the rate is a proportion. */
  lemma ItemReport(actions: seq<Action>, i: ItemId)
    ensures var db := Reached(actions);
            i in db.items ==>
            && db.items[i].timesOffered == |OfferRows(db.batchItems, db.batches, i)|
            && db.items[i].timesKept == |KeepRows(db.batchItems, db.batches, i)|
            && db.items[i].timesKept <= db.items[i].timesOffered
            && (db.items[i].timesOffered > 0 ==>
                  var row := MakeRow(db.items[i].timesOffered, db.items[i].timesKept);
                  && row.rejected == |OfferRows(db.batchItems, db.batches, i) - KeepRows(db.batchItems, db.batches, i)|
                  && 0.0 <= row.rate <= 1.0 && 0 <= row.percent <= 100)
  {
    hide Refs, Targets, Rosters, Rounds, Newest, Sizes, Sourced, DealOrder, Reported, Tallies, Ballots, NoneOverdue;
    ReachedKeeps(actions);
    var db := Reached(actions);
    if i in db.items {
      KeepsWithinOffers(db.batches, db.batchItems, i);
      if db.items[i].timesOffered > 0 {
        RateInRange(db.items[i].timesOffered, db.items[i].timesKept);
      }
    }
  }

  /** Sums over the items carrying one tag, each item once. */
  function SumOffered(items: map<ItemId, Item>, tagged: seq<ItemId>): nat
    requires forall i | i in tagged :: i in items
  {
    if tagged == [] then 0 else items[tagged[0]].timesOffered + SumOffered(items, tagged[1..])
  }

  function SumKept(items: map<ItemId, Item>, tagged: seq<ItemId>): nat
    requires forall i | i in tagged :: i in items
  {
    if tagged == [] then 0 else items[tagged[0]].timesKept + SumKept(items, tagged[1..])
  }

  /** Closed rows of the tagged items, and those kept. */
  function TagOffers(batchItems: map<BatchItemId, BatchItem>, batches: map<BatchId, Batch>,
                     tagged: seq<ItemId>): set<BatchItemId>
  {
    set x | x in batchItems && batchItems[x].item in tagged
            && batchItems[x].batch in batches && !batches[batchItems[x].batch].open
  }

  function TagKeeps(batchItems: map<BatchItemId, BatchItem>, batches: map<BatchId, Batch>,
                    tagged: seq<ItemId>): set<BatchItemId>
  {
    set x | x in batchItems && batchItems[x].item in tagged && IsKept(batchItems[x].outcome)
            && batchItems[x].batch in batches && !batches[batchItems[x].batch].open
  }

  lemma {:induction false} SumsCountRows(db: Db, tagged: seq<ItemId>)
    requires Counters(db.items, db.batches, db.batchItems)
    requires NoRepeats(tagged) && forall i | i in tagged :: i in db.items
    ensures SumOffered(db.items, tagged) == |TagOffers(db.batchItems, db.batches, tagged)|
    ensures SumKept(db.items, tagged) == |TagKeeps(db.batchItems, db.batches, tagged)|
  {
    if tagged != [] {
      var i, rest := tagged[0], tagged[1..];
      SumsCountRows(db, rest);
      assert tagged == [i] + rest && i !in rest;
      SplitSize(TagOffers(db.batchItems, db.batches, tagged), OfferRows(db.batchItems, db.batches, i),
                TagOffers(db.batchItems, db.batches, rest));
      SplitSize(TagKeeps(db.batchItems, db.batches, tagged), KeepRows(db.batchItems, db.batches, i),
                TagKeeps(db.batchItems, db.batches, rest));
    }
  }

  /** The by-tag report over any run: a tag's sums count the closed rows of its
      items, and a tag with offers has a proper rate. */
  lemma TagReport(actions: seq<Action>, tagged: seq<ItemId>)
    requires NoRepeats(tagged) && forall i | i in tagged :: i in Reached(actions).items
    ensures var db := Reached(actions);
            var offered, kept := SumOffered(db.items, tagged), SumKept(db.items, tagged);
            && offered == |TagOffers(db.batchItems, db.batches, tagged)|
            && kept == |TagKeeps(db.batchItems, db.batches, tagged)|
            && kept <= offered
            && (offered > 0 ==>
                  var row := MakeRow(offered, kept);
                  0.0 <= row.rate <= 1.0 && 0 <= row.percent <= 100)
  {
    hide Refs, Targets, Rosters, Rounds, Newest, Sizes, Sourced, DealOrder, Reported;
    hide Tallies, Ballots, Counters, NoneOverdue, Run, SumOffered, SumKept;
    var db := Reached(actions);
    ReachedKeeps(actions);
    SumsCountRows(db, tagged);
    SubsetSize(TagKeeps(db.batchItems, db.batches, tagged), TagOffers(db.batchItems, db.batches, tagged));
    if SumOffered(db.items, tagged) > 0 {
      RateInRange(SumOffered(db.items, tagged), SumKept(db.items, tagged));
    }
  }
}
