/** A track's pool: the eligible items fetched by name, then shuffled with the
    session's own generator. Models `_eligible_item_ids` of
    app/routes/sessions.py and the Fisher-Yates walk of Python's `shuffle`. */
module Pool {
  import opened Prelude
  import opened Tables

  predicate Eligible(items: map<ItemId, Item>, collection: Option<nat>, track: Track, i: ItemId) {
    && i in items
    && Some(items[i].collection) == collection
    && !items[i].archived
    && (track == Picks || track in items[i].types)
  }

  /** Strict dictionary order on names. */
  predicate NameBefore(a: string, b: string) {
    if b == [] then false
    else if a == [] then true
    else if a[0] != b[0] then a[0] < b[0]
    else NameBefore(a[1..], b[1..])
  }

  /** Places `i` before the first item whose name comes strictly after its own. */
  function Insert(items: map<ItemId, Item>, i: ItemId, s: seq<ItemId>): (r: seq<ItemId>)
    requires i in items && forall j | j in s :: j in items
    ensures forall j :: j in r <==> j == i || j in s
  {
    if s == [] then [i]
    else if NameBefore(items[i].name, items[s[0]].name) then [i] + s
    else
      var r := Insert(items, i, s[1..]);
      [s[0]] + r
  }

  /** Eligible ids below `bound`, by name and, among equal names, by id. */
  function Fetch(items: map<ItemId, Item>, collection: Option<nat>, track: Track, bound: nat): (r: seq<ItemId>)
    ensures forall i: ItemId :: i in r <==> i < bound && Eligible(items, collection, track, i)
  {
    if bound == 0 then []
    else
      var r := Fetch(items, collection, track, bound - 1);
      if Eligible(items, collection, track, bound - 1) then Insert(items, bound - 1, r) else r
  }

  function Roll(rolls: seq<seq<nat>>, n: nat, k: nat): (j: nat)
    ensures j <= k
  {
    if n < |rolls| && k < |rolls[n]| then rolls[n][k] % (k + 1) else 0
  }

  /** The remaining steps `k, k - 1, .., 1` of the shuffle: each swaps position
      `k` with a drawn position at or below it. */
  function Shuffle(s: seq<ItemId>, rolls: seq<seq<nat>>, k: nat): (r: seq<ItemId>)
    requires s == [] || k < |s|
    ensures |r| == |s|
    decreases k
  {
    if k == 0 || s == [] then s
    else
      var j := Roll(rolls, |s|, k);
      Shuffle(s[k := s[j]][j := s[k]], rolls, k - 1)
  }

  /** The whole shuffle. */
  function Shuffled(s: seq<ItemId>, rolls: seq<seq<nat>>): seq<ItemId> {
    Shuffle(s, rolls, if s == [] then 0 else |s| - 1)
  }

  function PoolOf(items: map<ItemId, Item>, nextItem: nat, s: Session, track: Track): seq<ItemId> {
    Shuffled(Fetch(items, s.collection, track, nextItem), s.rolls)
  }

  // ---------------------------------------------------------------- facts

  lemma {:induction false} InsertNoRepeats(items: map<ItemId, Item>, i: ItemId, s: seq<ItemId>)
    requires i in items && i !in s && NoRepeats(s) && forall j | j in s :: j in items
    ensures NoRepeats(Insert(items, i, s))
  {
    if s != [] && !NameBefore(items[i].name, items[s[0]].name) {
      InsertNoRepeats(items, i, s[1..]);
      assert s[0] !in s[1..];
    }
  }

  lemma {:induction false} FetchNoRepeats(items: map<ItemId, Item>, collection: Option<nat>, track: Track, bound: nat)
    ensures NoRepeats(Fetch(items, collection, track, bound))
  {
    if bound > 0 {
      FetchNoRepeats(items, collection, track, bound - 1);
      if Eligible(items, collection, track, bound - 1) {
        InsertNoRepeats(items, bound - 1, Fetch(items, collection, track, bound - 1));
      }
    }
  }

  /** By name, and by id among equal names. */
  predicate Before(items: map<ItemId, Item>, i: ItemId, j: ItemId)
    requires i in items && j in items
  {
    NameBefore(items[i].name, items[j].name) || (items[i].name == items[j].name && i < j)
  }

  ghost predicate InNameOrder(items: map<ItemId, Item>, s: seq<ItemId>) {
    && (forall k | 0 <= k < |s| :: s[k] in items)
    && forall j, k | 0 <= j < k < |s| :: Before(items, s[j], s[k])
  }

  lemma {:induction false} NamesCompare(a: string, b: string)
    ensures NameBefore(a, b) || a == b || NameBefore(b, a)
  {
    if a != [] && b != [] {
      NamesCompare(a[1..], b[1..]);
      assert a == [a[0]] + a[1..] && b == [b[0]] + b[1..];
    }
  }

  lemma {:induction false} NamesChain(a: string, b: string, c: string)
    requires NameBefore(a, b) && NameBefore(b, c)
    ensures NameBefore(a, c)
  {
    if a != [] && a[0] == b[0] == c[0] {
      NamesChain(a[1..], b[1..], c[1..]);
    }
  }

  /** Dictionary order: at the first place where the names differ, the one that has
      ended, or has the smaller letter, comes first. */
  lemma {:induction false} NamesInDictionary(a: string, b: string)
    ensures NameBefore(a, b)
            <==> exists k :: 0 <= k <= |a| && k < |b| && a[..k] == b[..k] && (k == |a| || a[k] < b[k])
  {
    if a == [] {
      assert b != [] ==> a[..0] == b[..0];
    } else if b != [] {
      var c, d := a[1..], b[1..];
      NamesInDictionary(c, d);
      if NameBefore(a, b) && a[0] == b[0] {
        var k :| 0 <= k <= |c| && k < |d| && c[..k] == d[..k] && (k == |c| || c[k] < d[k]);
        assert a[..k + 1] == [a[0]] + c[..k] && b[..k + 1] == [b[0]] + d[..k];
      } else if NameBefore(a, b) {
        assert a[..0] == b[..0];
      }
      if k :| 0 <= k <= |a| && k < |b| && a[..k] == b[..k] && (k == |a| || a[k] < b[k]) {
        if k > 0 {
          assert a[..k][0] == b[..k][0];
          assert c[..k - 1] == a[..k][1..] && d[..k - 1] == b[..k][1..];
        }
      }
    }
  }

  lemma BeforeChain(items: map<ItemId, Item>, i: ItemId, j: ItemId, k: ItemId)
    requires i in items && j in items && k in items && Before(items, i, j) && Before(items, j, k)
    ensures Before(items, i, k)
  {
    if NameBefore(items[i].name, items[j].name) && NameBefore(items[j].name, items[k].name) {
      NamesChain(items[i].name, items[j].name, items[k].name);
    }
  }

  lemma {:induction false} InsertInOrder(items: map<ItemId, Item>, i: ItemId, s: seq<ItemId>)
    requires i in items && InNameOrder(items, s) && (forall k | 0 <= k < |s| :: s[k] < i)
    requires forall j | j in s :: j in items
    ensures InNameOrder(items, Insert(items, i, s))
  {
    if s != [] {
      NamesCompare(items[i].name, items[s[0]].name);
      if NameBefore(items[i].name, items[s[0]].name) {
        assert Before(items, i, s[0]);
        forall k | 0 < k < |s| ensures Before(items, i, s[k]) {
          BeforeChain(items, i, s[0], s[k]);
        }
        hide Before;
      } else {
        assert Before(items, s[0], i);
        InsertInOrder(items, i, s[1..]);
        hide Before;
        var r := Insert(items, i, s[1..]);
        forall k | 0 <= k < |r| ensures Before(items, s[0], r[k]) {
          assert r[k] in r;
          if r[k] in s[1..] {
            var j :| 0 <= j < |s[1..]| && s[1..][j] == r[k];
            assert s[j + 1] == r[k];
          }
        }
      }
    }
  }

  /** The fetch is ordered by name, then id, whatever the library holds. */
  lemma {:induction false} FetchInOrder(items: map<ItemId, Item>, collection: Option<nat>, track: Track, bound: nat)
    ensures InNameOrder(items, Fetch(items, collection, track, bound))
  {
    if bound > 0 {
      FetchInOrder(items, collection, track, bound - 1);
      if Eligible(items, collection, track, bound - 1) {
        var r := Fetch(items, collection, track, bound - 1);
        forall k | 0 <= k < |r| ensures r[k] < bound - 1 {
          assert r[k] in r;
        }
        InsertInOrder(items, bound - 1, r);
      }
    }
  }

  /** Shuffling only permutes: same members, still no repeats. */
  lemma {:induction false} ShufflePermutes(s: seq<ItemId>, rolls: seq<seq<nat>>, k: nat)
    requires s == [] || k < |s|
    requires NoRepeats(s)
    ensures NoRepeats(Shuffle(s, rolls, k))
    ensures forall i :: i in Shuffle(s, rolls, k) <==> i in s
    decreases k
  {
    if k > 0 && s != [] {
      var j := Roll(rolls, |s|, k);
      var t := s[k := s[j]][j := s[k]];
      assert forall i | i in s :: i in t by {
        forall i | i in s ensures i in t {
          var h :| 0 <= h < |s| && s[h] == i;
          assert i == t[if h == k then j else if h == j then k else h];
        }
      }
      ShufflePermutes(t, rolls, k - 1);
    }
  }

  /** The steps still to come leave the places beyond alone. */
  lemma {:induction false} ShuffleFixes(s: seq<ItemId>, rolls: seq<seq<nat>>, k: nat)
    requires k < |s|
    ensures forall j | k < j < |s| :: Shuffle(s, rolls, k)[j] == s[j]
    decreases k
  {
    if k > 0 {
      var j := Roll(rolls, |s|, k);
      ShuffleFixes(s[k := s[j]][j := s[k]], rolls, k - 1);
    }
  }

  /** The draws of step 1 to `k`, as the shuffle reads them, are those of `row`. */
  predicate Draws(rolls: seq<seq<nat>>, n: nat, k: nat, row: seq<nat>) {
    k < |row| && forall j | 1 <= j <= k :: Roll(rolls, n, j) == row[j]
  }

  ghost predicate SameMembers(s: seq<ItemId>, t: seq<ItemId>) {
    NoRepeats(s) && NoRepeats(t) && |s| == |t| && forall i :: i in s <==> i in t
  }

  lemma SwapKeepsMembers(s: seq<ItemId>, t: seq<ItemId>, j: nat, k: nat)
    requires SameMembers(s, t) && j <= k < |s|
    ensures SameMembers(s[k := s[j]][j := s[k]], t)
  {
    var u := s[k := s[j]][j := s[k]];
    forall i ensures i in u <==> i in s {
      if i in s {
        var h :| 0 <= h < |s| && s[h] == i;
        assert i == u[if h == k then j else if h == j then k else h];
      }
    }
  }

  /** Every order can be drawn: for any order of the same items there are draws,
      each within its step's range, that shuffle into it. */
  lemma {:induction false} OrderCanBeDrawn(s: seq<ItemId>, t: seq<ItemId>, k: nat) returns (row: seq<nat>)
    requires SameMembers(s, t) && k < |s| && forall j | k < j < |s| :: s[j] == t[j]
    ensures |row| == |s| && forall j | 1 <= j <= k :: row[j] <= j
    ensures forall rolls | Draws(rolls, |s|, k, row) :: Shuffle(s, rolls, k) == t
    decreases k
  {
    assert t[k] in s;
    var j :| 0 <= j < |s| && s[j] == t[k];
    if k == 0 {
      row := seq(|s|, _ => 0);
      assert s == t;
    } else {
      var u := s[k := s[j]][j := s[k]];
      SwapKeepsMembers(s, t, j, k);
      row := OrderCanBeDrawn(u, t, k - 1);
      row := row[k := j];
      forall rolls | Draws(rolls, |s|, k, row) ensures Shuffle(s, rolls, k) == t {
        assert Roll(rolls, |s|, k) == j;
      }
    }
  }

  /** And in one way only: draws that shuffle into the same order are the same. */
  lemma {:induction false} OrderTellsDraws(s: seq<ItemId>, one: seq<seq<nat>>, two: seq<seq<nat>>, k: nat)
    requires NoRepeats(s) && k < |s| && Shuffle(s, one, k) == Shuffle(s, two, k)
    ensures forall j | 1 <= j <= k :: Roll(one, |s|, j) == Roll(two, |s|, j)
    decreases k
  {
    if k > 0 {
      var i, j := Roll(one, |s|, k), Roll(two, |s|, k);
      ShuffleFixes(s[k := s[i]][i := s[k]], one, k - 1);
      ShuffleFixes(s[k := s[j]][j := s[k]], two, k - 1);
      assert Shuffle(s, one, k)[k] == s[i] && Shuffle(s, two, k)[k] == s[j];
      SwapNoRepeats(s, i, k);
      OrderTellsDraws(s[k := s[i]][i := s[k]], one, two, k - 1);
    }
  }

  lemma SwapNoRepeats(s: seq<ItemId>, j: nat, k: nat)
    requires NoRepeats(s) && j <= k < |s|
    ensures NoRepeats(s[k := s[j]][j := s[k]])
  {
  }

  lemma RowIsRead(rolls: seq<seq<nat>>, n: nat, row: seq<nat>)
    requires 0 < n < |rolls| && rolls[n] == row && |row| == n && forall j | 1 <= j < n :: row[j] <= j
    ensures Draws(rolls, n, n - 1, row)
  {
    forall j | 1 <= j < n ensures Roll(rolls, n, j) == row[j] {
      SmallMod(row[j], j + 1);
    }
  }

  lemma SmallMod(a: nat, n: nat)
    requires a < n
    ensures a % n == a
  {
  }

  /** The shuffle is fair: each order of the items comes from exactly one choice of
      draws within range, so equally likely draws make every order equally likely. */
  lemma EveryOrderOnce(s: seq<ItemId>, t: seq<ItemId>) returns (rolls: seq<seq<nat>>)
    requires SameMembers(s, t) && s != []
    ensures Shuffled(s, rolls) == t
    ensures forall others | Shuffled(s, others) == t ::
              forall j | 1 <= j < |s| :: Roll(others, |s|, j) == Roll(rolls, |s|, j)
  {
    var row := OrderCanBeDrawn(s, t, |s| - 1);
    rolls := seq(|s| + 1, _ => row);
    RowIsRead(rolls, |s|, row);
    hide Shuffle, Roll, Draws;
    forall others | Shuffled(s, others) == t
      ensures forall j | 1 <= j < |s| :: Roll(others, |s|, j) == Roll(rolls, |s|, j)
    {
      OrderTellsDraws(s, others, rolls, |s| - 1);
    }
  }

  /** The pool of a track is exactly its eligible items, each once. */
  lemma PoolIsEligible(items: map<ItemId, Item>, nextItem: nat, s: Session, track: Track)
    requires forall i | i in items :: i < nextItem
    ensures NoRepeats(PoolOf(items, nextItem, s, track))
    ensures forall i :: i in PoolOf(items, nextItem, s, track) <==> Eligible(items, s.collection, track, i)
  {
    FetchNoRepeats(items, s.collection, track, nextItem);
    var fetched := Fetch(items, s.collection, track, nextItem);
    ShufflePermutes(fetched, s.rolls, if fetched == [] then 0 else |fetched| - 1);
  }

  /** Two libraries that agree on what the fetch looks at, in every collection. */
  ghost predicate SameLibrary(a: map<ItemId, Item>, b: map<ItemId, Item>) {
    && a.Keys == b.Keys
    && forall i | i in a ::
         a[i].collection == b[i].collection && a[i].name == b[i].name
         && a[i].types == b[i].types && a[i].archived == b[i].archived
  }

  /** The same for one collection only. */
  ghost predicate SameShelf(a: map<ItemId, Item>, b: map<ItemId, Item>, collection: Option<nat>) {
    && (forall i | i in a && Some(a[i].collection) == collection ::
          i in b && b[i].collection == a[i].collection && b[i].name == a[i].name
          && b[i].types == a[i].types && b[i].archived == a[i].archived)
    && (forall i | i in b && Some(b[i].collection) == collection :: i in a && a[i].collection == b[i].collection)
  }

  lemma {:induction false} InsertSame(a: map<ItemId, Item>, b: map<ItemId, Item>, i: ItemId, s: seq<ItemId>)
    requires i in a && i in b && a[i].name == b[i].name
    requires forall j | j in s :: j in a && j in b && a[j].name == b[j].name
    ensures Insert(a, i, s) == Insert(b, i, s)
  {
    if s != [] {
      InsertSame(a, b, i, s[1..]);
    }
  }

  /** Neither counters nor other collections influence the fetch. */
  lemma {:induction false} FetchSame(a: map<ItemId, Item>, b: map<ItemId, Item>, collection: Option<nat>, track: Track,
                                     bound: nat)
    requires SameShelf(a, b, collection)
    ensures Fetch(a, collection, track, bound) == Fetch(b, collection, track, bound)
  {
    if bound > 0 {
      FetchSame(a, b, collection, track, bound - 1);
      if Eligible(a, collection, track, bound - 1) {
        InsertSame(a, b, bound - 1, Fetch(a, collection, track, bound - 1));
      }
    }
  }

  /** Nor does fetching past the last item. */
  lemma {:induction false} FetchPast(items: map<ItemId, Item>, collection: Option<nat>, track: Track, bound: nat,
                                     past: nat)
    requires bound <= past && forall i | i in items :: i < bound
    ensures Fetch(items, collection, track, past) == Fetch(items, collection, track, bound)
    decreases past
  {
    if bound < past {
      FetchPast(items, collection, track, bound, past - 1);
    }
  }

  /** A track's pool depends on its own collection's items only. */
  lemma PoolSame(a: map<ItemId, Item>, nextA: nat, b: map<ItemId, Item>, nextB: nat, s: Session, track: Track)
    requires SameShelf(a, b, s.collection)
    requires (forall i | i in a :: i < nextA) && (forall i | i in b :: i < nextB)
    ensures PoolOf(a, nextA, s, track) == PoolOf(b, nextB, s, track)
  {
    var past := if nextA <= nextB then nextB else nextA;
    FetchPast(a, s.collection, track, nextA, past);
    FetchPast(b, s.collection, track, nextB, past);
    FetchSame(a, b, s.collection, track, past);
  }

  /** So a track's pool can stand in any order at all of its items, whatever the
      order of the fetch: it is the session's draws that decide. */
  lemma PoolCanBeAnyOrder(items: map<ItemId, Item>, nextItem: nat, s: Session, track: Track, t: seq<ItemId>)
    requires forall i | i in items :: i < nextItem
    requires NoRepeats(t) && forall i :: i in t <==> Eligible(items, s.collection, track, i)
    ensures exists rolls :: PoolOf(items, nextItem, s.(rolls := rolls), track) == t
  {
    var fetched := Fetch(items, s.collection, track, nextItem);
    FetchNoRepeats(items, s.collection, track, nextItem);
    assert forall i :: i in t <==> i in fetched;
    SameMembersSameSize(fetched, t);
    if fetched == [] {
      assert t == [];
      assert PoolOf(items, nextItem, s.(rolls := []), track) == t;
    } else {
      var rolls := EveryOrderOnce(fetched, t);
      assert PoolOf(items, nextItem, s.(rolls := rolls), track) == t;
    }
  }

  lemma {:induction false} SetOfSize(s: seq<ItemId>) returns (m: set<ItemId>)
    requires NoRepeats(s)
    ensures |m| == |s| && forall i :: i in m <==> i in s
  {
    if s == [] {
      m := {};
    } else {
      m := SetOfSize(s[1..]);
      assert s == [s[0]] + s[1..];
      m := m + {s[0]};
    }
  }

  lemma SameMembersSameSize(s: seq<ItemId>, t: seq<ItemId>)
    requires NoRepeats(s) && NoRepeats(t) && forall i :: i in s <==> i in t
    ensures |s| == |t|
  {
    var m := SetOfSize(s);
    var n := SetOfSize(t);
    assert m == n;
  }
}
