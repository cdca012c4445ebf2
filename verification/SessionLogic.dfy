/** The voting rules: batch assembly, tallies, verdicts and status changes.
    Models app/session_logic.py. */
module SessionLogic {
  import opened Prelude

  const BATCH_SIZE: nat := 15

  // ---------------------------------------------------------------- assembly

  /** The pool without the ids already offered, order kept. */
  function Unoffered(eligible: seq<nat>, offered: set<nat>): (rest: seq<nat>)
    ensures forall x :: x in rest <==> x in eligible && x !in offered
  {
    if eligible == [] then []
    else if eligible[0] in offered then Unoffered(eligible[1..], offered)
    else [eligible[0]] + Unoffered(eligible[1..], offered)
  }

  /** The next batch: the first `size` ids of the pool not offered before. */
  function AssembleBatch(eligible: seq<nat>, offered: set<nat>, size: int := BATCH_SIZE): (chosen: seq<nat>)
    requires size > 0
  {
    var rest := Unoffered(eligible, offered);
    if |rest| <= size then rest else rest[..size]
  }

  /** Where `x` stands in the pool. */
  function Position(pool: seq<nat>, x: nat): (p: nat)
    requires x in pool
    ensures p < |pool| && pool[p] == x
    ensures x !in pool[..p]
  {
    if pool[0] == x then 0 else
      var p := 1 + Position(pool[1..], x);
      assert pool[..p] == [pool[0]] + pool[1..][..p - 1];
      p
  }

  /** Filtering keeps the pool's order, and never repeats an id. */
  lemma {:induction false} UnofferedInOrder(eligible: seq<nat>, offered: set<nat>)
    requires NoRepeats(eligible)
    ensures var rest := Unoffered(eligible, offered);
            && NoRepeats(rest)
            && forall j, k | 0 <= j < k < |rest| :: Position(eligible, rest[j]) < Position(eligible, rest[k])
  {
    if eligible != [] {
      var tail := eligible[1..];
      UnofferedInOrder(tail, offered);
      var rest, lower := Unoffered(eligible, offered), Unoffered(tail, offered);
      assert forall x | x in lower :: x != eligible[0] && Position(eligible, x) == 1 + Position(tail, x);
    }
  }

  /** What a batch is: distinct un-offered pool members in pool order, at most
      `size` of them, never skipping an un-offered id, and empty only when the
      pool is exhausted. */
  lemma AssembleBatchDeals(eligible: seq<nat>, offered: set<nat>, size: int)
    requires NoRepeats(eligible) && size > 0
    ensures var chosen := AssembleBatch(eligible, offered, size);
            && |chosen| <= size
            && NoRepeats(chosen)
            && (forall x | x in chosen :: x in eligible && x !in offered)
            && (forall j, k | 0 <= j < k < |chosen| :: Position(eligible, chosen[j]) < Position(eligible, chosen[k]))
            && (forall x, y | x in chosen && y in eligible && y !in offered && y !in chosen ::
                  Position(eligible, x) < Position(eligible, y))
            && (|chosen| < size ==> forall x | x in eligible :: x in offered || x in chosen)
            && (chosen == [] <==> forall x | x in eligible :: x in offered)
  {
    UnofferedInOrder(eligible, offered);
    var rest, chosen := Unoffered(eligible, offered), AssembleBatch(eligible, offered, size);
    assert chosen <= rest;
    forall x, y | x in chosen && y in eligible && y !in offered && y !in chosen
      ensures Position(eligible, x) < Position(eligible, y)
    {
      assert y in rest;
      var j :| 0 <= j < |chosen| && chosen[j] == x;
      var k :| 0 <= k < |rest| && rest[k] == y;
      assert rest[j] == x;
    }
    assert rest != [] ==> rest[0] in eligible && rest[0] !in offered;
    assert chosen == [] <==> rest == [];
    if |chosen| < size {
      assert chosen == rest;
    }
  }

  // ---------------------------------------------------------------- tallies

  datatype Tally = Tally(yes: int, no: int)

  datatype Verdict = AgreedByAll | Majority | Rejected

  /** Counts the 'yes' and 'no' choices and ignores anything else. */
  function TallyResponses(choices: seq<string>): (t: Tally)
    ensures t.yes >= 0 && t.no >= 0 && t.yes + t.no <= |choices|
    ensures (forall k | 0 <= k < |choices| :: choices[k] == "yes" || choices[k] == "no") ==> t.yes + t.no == |choices|
  {
    if choices == [] then Tally(0, 0) else
      var t := TallyResponses(choices[1..]);
      if choices[0] == "yes" then t.(yes := t.yes + 1)
      else if choices[0] == "no" then t.(no := t.no + 1)
      else t
  }

  /** Each count is how often its choice occurs. */
  lemma {:induction false} TallyCounts(choices: seq<string>)
    ensures TallyResponses(choices) == Tally(multiset(choices)["yes"], multiset(choices)["no"])
  {
    if choices != [] {
      TallyCounts(choices[1..]);
      assert choices == [choices[0]] + choices[1..];
    }
  }

  predicate IsUnanimous(t: Tally, rosterSize: int) {
    rosterSize > 0 && t.yes == rosterSize
  }

  predicate IsMajority(t: Tally) {
    t.yes > t.no
  }

  function Classify(t: Tally, rosterSize: int): Verdict {
    if IsUnanimous(t, rosterSize) then AgreedByAll
    else if IsMajority(t) then Majority
    else Rejected
  }

  /** A manual close counts every missing vote as a 'no'. */
  function ResolveMissingAsNo(rosterSize: int, yesResponses: int): Result<Tally> {
    if !(0 <= yesResponses <= rosterSize) then Err("yes_responses out of range for roster_size")
    else Ok(Tally(yesResponses, rosterSize - yesResponses))
  }

  /** The count is full exactly when there is nothing but yeses. */
  lemma {:induction false} AllYes(choices: seq<string>)
    ensures TallyResponses(choices).yes <= |choices|
    ensures TallyResponses(choices).yes == |choices| <==> forall k | 0 <= k < |choices| :: choices[k] == "yes"
  {
    if choices != [] {
      AllYes(choices[1..]);
      assert forall k | 0 < k < |choices| :: choices[k] == choices[1..][k - 1];
    }
  }

  /** The verdict on what a roster answered: agreed when there is a roster and all
      of it said yes, rejected unless the yeses are more than half of the answers,
      and left to the host in between. */
  lemma VerdictMeans(choices: seq<string>, rosterSize: nat)
    requires |choices| <= rosterSize && forall k | 0 <= k < |choices| :: choices[k] == "yes" || choices[k] == "no"
    ensures var verdict := Classify(TallyResponses(choices), rosterSize);
            && (verdict == AgreedByAll
                <==> choices != [] && |choices| == rosterSize && forall k | 0 <= k < |choices| :: choices[k] == "yes")
            && (verdict == Rejected <==> 2 * multiset(choices)["yes"] <= |choices|)
  {
    AllYes(choices);
    TallyCounts(choices);
  }

  // ---------------------------------------------------------------- statuses

  datatype Status = Lobby | Voting | Complete | Expired

  function Successors(s: Status): set<Status> {
    match s
    case Lobby => {Voting, Expired}
    case Voting => {Complete, Expired}
    case Complete => {}
    case Expired => {}
  }

  /** An idempotent status change: an illegal one is an error. */
  function ApplyTransition(current: Status, target: Status): Result<Status> {
    if target in Successors(current) then Ok(target)
    else if current == target then Ok(current)
    else Err("illegal transition")
  }

  /** A status moves from the lobby to voting, from voting to complete, from either
      to expired, and otherwise only to itself; a change applied again changes
      nothing, and none leads back. */
  lemma TransitionMeans(current: Status, target: Status)
    ensures var next := ApplyTransition(current, target);
            && (next.Ok? <==> current == target || (current == Lobby && target == Voting)
                              || (current == Voting && target == Complete)
                              || (target == Expired && current != Complete))
            && (next.Ok? ==> next.value == target && ApplyTransition(next.value, target) == next)
            && (next.Ok? && ApplyTransition(target, current).Ok? ==> current == target)
  {
  }

  /** One more than the greatest sequence number in use, 1 when there is none. */
  function NextSeq(existing: set<nat>): (n: nat)
    ensures n >= 1 && forall k | k in existing :: k < n
    ensures n == 1 || n - 1 in existing
  {
    if existing == {} then 1 else MaxOf(existing) + 1
  }

  function MaxOf(s: set<nat>): (m: nat)
    requires s != {}
    ensures m in s && forall k | k in s :: k <= m
  {
    GreatestIsUnique(s);
    var m :| m in s && forall k | k in s :: k <= m;
    m
  }

  lemma GreatestIsUnique(s: set<nat>)
    requires s != {}
    ensures exists m :: m in s && forall k | k in s :: k <= m
  {
    var m := GreatestExists(s);
  }

  // ---------------------------------------------------------------- codes

  /** The first of the generator's next 100 draws that is not taken. */
  function FirstFree(existing: set<string>, draws: seq<string>): (code: Option<string>)
    ensures code.Some? <==> exists k :: 0 <= k < |draws| && draws[k] !in existing
    ensures code.Some? ==> code.value !in existing && code.value in draws
  {
    if draws == [] then None
    else if draws[0] !in existing then Some(draws[0])
    else
      assert forall k | 0 <= k < |draws| && draws[k] !in existing :: draws[1..][k - 1] == draws[k];
      FirstFree(existing, draws[1..])
  }

  const CODE_ATTEMPTS: nat := 100

  function MakeCode(existing: set<string>, draws: seq<string>): Option<string> {
    FirstFree(existing, if |draws| <= CODE_ATTEMPTS then draws else draws[..CODE_ATTEMPTS])
  }

  /** A code is found unless the first hundred draws are all taken; it is the
      first free one among them. */
  lemma {:induction false} FirstFreeIsFirst(existing: set<string>, draws: seq<string>)
    ensures var code := FirstFree(existing, draws);
            code.Some? ==>
            exists k :: 0 <= k < |draws| && draws[k] == code.value && forall j | 0 <= j < k :: draws[j] in existing
  {
    if draws != [] {
      if draws[0] in existing {
        FirstFreeIsFirst(existing, draws[1..]);
        var code := FirstFree(existing, draws[1..]);
        if code.Some? {
          var k :| 0 <= k < |draws[1..]| && draws[1..][k] == code.value
            && forall j | 0 <= j < k :: draws[1..][j] in existing;
          assert forall j | 0 <= j < k + 1 :: draws[j] in existing by {
            assert forall j | 0 < j < k + 1 :: draws[j] == draws[1..][j - 1];
          }
          assert draws[k + 1] == code.value;
        }
      } else {
        assert draws[0] == FirstFree(existing, draws).value;
      }
    }
  }

  lemma MakeCodeMeans(existing: set<string>, draws: seq<string>)
    ensures var code := MakeCode(existing, draws);
            && (code.None? <==> forall k | 0 <= k < |draws| && k < 100 :: draws[k] in existing)
            && (code.Some? ==> exists k :: 0 <= k < |draws| && k < 100 && draws[k] == code.value
                                            && code.value !in existing && forall j | 0 <= j < k :: draws[j] in existing)
  {
    var tries := if |draws| <= CODE_ATTEMPTS then draws else draws[..CODE_ATTEMPTS];
    FirstFreeIsFirst(existing, tries);
    assert forall k | 0 <= k < |tries| :: tries[k] == draws[k];
    var code := MakeCode(existing, draws);
    if code.Some? {
      var k :| 0 <= k < |tries| && tries[k] == code.value && forall j | 0 <= j < k :: tries[j] in existing;
      assert draws[k] == code.value && forall j | 0 <= j < k :: draws[j] in existing;
    } else {
      forall k | 0 <= k < |draws| && k < CODE_ATTEMPTS ensures draws[k] in existing {
        assert draws[k] == tries[k];
      }
    }
  }
}
