/** The participant cookie of one browser: session codes mapped to participant
    ids in insertion order, re-inserted last on every write and capped at twenty
    entries, oldest out first. Models `_set_session_cookie_participant` and
    `_session_cookie_participant_id` of app/routes/sessions.py. */
module CookieJar {
  import opened Prelude
  import opened Tables

  const CAP: nat := 20

  datatype Entry = Entry(code: Code, id: PersonId)

  ghost predicate DistinctCodes(s: seq<Entry>) {
    forall j, k | 0 <= j < k < |s| :: s[j].code != s[k].code
  }

  function CodesOf(s: seq<Entry>): set<Code> {
    set k | 0 <= k < |s| :: s[k].code
  }

  /** `dict.pop(code, None)`. */
  function Without(s: seq<Entry>, code: Code): (r: seq<Entry>)
    ensures forall k | 0 <= k < |r| :: r[k].code != code && r[k].code in CodesOf(s)
    ensures |r| <= |s|
  {
    if s == [] then []
    else
      assert forall k | 0 <= k < |s| - 1 :: s[1..][k] == s[k + 1];
      (if s[0].code == code then [] else [s[0]]) + Without(s[1..], code)
  }

  function Lookup(s: seq<Entry>, code: Code): (id: Option<PersonId>)
    ensures id.Some? ==> Entry(code, id.value) in s
    ensures id.Some? <==> code in CodesOf(s)
  {
    if s == [] then None
    else if s[0].code == code then Some(s[0].id)
    else
      assert forall k | 0 < k < |s| :: s[k] == s[1..][k - 1];
      Lookup(s[1..], code)
  }

  function Capped(s: seq<Entry>): seq<Entry> {
    if |s| <= CAP then s else s[|s| - CAP..]
  }

  /** Every code ever written with its latest id, by time of last write. */
  function Recency(written: seq<Entry>): seq<Entry> {
    if written == [] then []
    else
      var e := written[|written| - 1];
      Without(Recency(written[..|written| - 1]), e.code) + [e]
  }

  /** One write on the capped jar. */
  function Written(entries: seq<Entry>, e: Entry): seq<Entry> {
    Capped(Without(entries, e.code) + [e])
  }

  // ------------------------------------------------------------ facts

  lemma {:induction false} WithoutConcat(a: seq<Entry>, b: seq<Entry>, code: Code)
    ensures Without(a + b, code) == Without(a, code) + Without(b, code)
  {
    if a == [] {
      assert a + b == b;
    } else {
      assert (a + b)[1..] == a[1..] + b;
      WithoutConcat(a[1..], b, code);
    }
  }

  lemma {:induction false} WithoutAbsent(s: seq<Entry>, code: Code)
    requires code !in CodesOf(s)
    ensures Without(s, code) == s
  {
    if s != [] {
      assert s[0].code in CodesOf(s);
      assert forall k | 0 <= k < |s| - 1 :: s[1..][k] == s[k + 1];
      WithoutAbsent(s[1..], code);
    }
  }

  lemma CodesConcat(a: seq<Entry>, b: seq<Entry>)
    ensures CodesOf(a + b) == CodesOf(a) + CodesOf(b)
  {
    forall c ensures c in CodesOf(a + b) <==> c in CodesOf(a) + CodesOf(b) {
      if c in CodesOf(a) {
        var k :| 0 <= k < |a| && a[k].code == c;
        assert (a + b)[k].code == c;
      }
      if c in CodesOf(b) {
        var k :| 0 <= k < |b| && b[k].code == c;
        assert (a + b)[|a| + k].code == c;
      }
    }
  }

  lemma CodesOne(e: Entry)
    ensures CodesOf([e]) == {e.code}
  {
    assert [e][0].code in CodesOf([e]);
  }

  lemma AppendCodes(s: seq<Entry>, e: Entry)
    ensures CodesOf(s + [e]) == CodesOf(s) + {e.code}
  {
    CodesConcat(s, [e]);
    CodesOne(e);
  }

  lemma {:induction false} WithoutDistinct(s: seq<Entry>, code: Code)
    requires DistinctCodes(s)
    ensures DistinctCodes(Without(s, code))
    ensures CodesOf(Without(s, code)) == CodesOf(s) - {code}
    ensures |Without(s, code)| == |s| - (if code in CodesOf(s) then 1 else 0)
  {
    if s != [] {
      WithoutDistinct(s[1..], code);
      var rest := Without(s[1..], code);
      assert s == [s[0]] + s[1..];
      CodesConcat([s[0]], s[1..]);
      CodesConcat([s[0]], rest);
      CodesOne(s[0]);
      assert forall k | 0 <= k < |s| - 1 :: s[1..][k] == s[k + 1];
      assert s[0].code !in CodesOf(s[1..]);
      assert Without(s, code) == if s[0].code == code then rest else [s[0]] + rest;
    }
  }

  lemma {:induction false} RecencyDistinct(written: seq<Entry>)
    ensures DistinctCodes(Recency(written))
    ensures CodesOf(Recency(written)) == CodesOf(written)
  {
    if written != [] {
      var init, e := written[..|written| - 1], written[|written| - 1];
      RecencyDistinct(init);
      WithoutDistinct(Recency(init), e.code);
      AppendCodes(Without(Recency(init), e.code), e);
      assert written == init + [e];
      AppendCodes(init, e);
    }
  }

  lemma {:induction false} DistinctCount(s: seq<Entry>)
    requires DistinctCodes(s)
    ensures |CodesOf(s)| == |s|
  {
    if s != [] {
      var init, e := s[..|s| - 1], s[|s| - 1];
      DistinctCount(init);
      assert s == init + [e];
      AppendCodes(init, e);
    }
  }

  /** Capping as one goes is the same as capping the full record once: the jar
      always holds the twenty most recently written codes. */
  lemma CappedWrite(full: seq<Entry>, e: Entry)
    requires DistinctCodes(full)
    ensures Written(Capped(full), e) == Capped(Without(full, e.code) + [e])
  {
    hide Without, CodesOf, Capped;
    CappedOf(full);
    if |full| > CAP {
      var evicted, kept := full[..|full| - CAP], full[|full| - CAP..];
      assert full == evicted + kept;
      WithoutConcat(evicted, kept, e.code);
      DistinctParts(evicted, kept);
      WithoutDistinct(kept, e.code);
      if e.code in CodesOf(kept) {
        WithoutAbsent(evicted, e.code);
        CappedTail(evicted, Without(kept, e.code) + [e]);
        assert Without(full, e.code) + [e] == evicted + (Without(kept, e.code) + [e]);
      } else {
        WithoutAbsent(kept, e.code);
        assert kept + [e] == [kept[0]] + (kept[1..] + [e]);
        CappedTail([kept[0]], kept[1..] + [e]);
        CappedTail(Without(evicted, e.code) + [kept[0]], kept[1..] + [e]);
        assert Without(full, e.code) + [e] == (Without(evicted, e.code) + [kept[0]]) + (kept[1..] + [e]);
      }
    }
  }

  lemma CappedOf(s: seq<Entry>)
    ensures |s| <= CAP ==> Capped(s) == s
    ensures |s| > CAP ==> Capped(s) == s[|s| - CAP..]
  {
  }

  lemma CappedTail(a: seq<Entry>, b: seq<Entry>)
    requires |b| == CAP
    ensures Capped(a + b) == b == Capped(b)
  {
  }

  lemma DistinctParts(a: seq<Entry>, b: seq<Entry>)
    requires DistinctCodes(a + b)
    ensures DistinctCodes(a) && DistinctCodes(b) && CodesOf(a) !! CodesOf(b)
  {
    assert forall k | 0 <= k < |a| :: (a + b)[k] == a[k];
    assert forall k | 0 <= k < |b| :: (a + b)[|a| + k] == b[k];
  }

  // ------------------------------------------------------------ what a lookup finds

  predicate LastWriteOf(written: seq<Entry>, n: nat) {
    n < |written| && forall m | n < m < |written| :: written[m].code != written[n].code
  }

  /** The codes written after write `n`. */
  function CodesSince(written: seq<Entry>, n: nat): set<Code> {
    set m | n < m < |written| :: written[m].code
  }

  /** In the recency order, what follows an entry are the codes written since. */
  lemma {:induction false} RecencySplits(written: seq<Entry>, n: nat) returns (older: seq<Entry>, newer: seq<Entry>)
    requires LastWriteOf(written, n)
    ensures Recency(written) == older + [written[n]] + newer
    ensures CodesOf(newer) == CodesSince(written, n)
  {
    var init, e := written[..|written| - 1], written[|written| - 1];
    RecencyAppend(init, e);
    NothingSince(init, e);
    assert written == init + [e];
    hide *;
    if n == |init| {
      older, newer := Without(Recency(init), e.code), [];
    } else {
      ShorterLastWrite(init, e, n);
      var a, b := RecencySplits(init, n);
      older, newer := Without(a, e.code), Without(b, e.code) + [e];
      WithoutMiddle(a, written[n], b, e.code);
      RecencyDistinct(init);
      DistinctParts(a + [written[n]], b);
      WithoutDistinct(b, e.code);
      AppendCodes(Without(b, e.code), e);
      SinceAppend(init, e, n);
    }
  }

  lemma RecencyAppend(init: seq<Entry>, e: Entry)
    ensures Recency(init + [e]) == Without(Recency(init), e.code) + [e]
  {
    assert (init + [e])[..|init|] == init;
  }

  lemma NothingSince(init: seq<Entry>, e: Entry)
    ensures CodesSince(init + [e], |init|) == CodesOf([]) == {}
  {
  }

  lemma ShorterLastWrite(init: seq<Entry>, e: Entry, n: nat)
    requires LastWriteOf(init + [e], n) && n < |init|
    ensures LastWriteOf(init, n) && e.code != init[n].code
  {
    assert forall m | 0 <= m < |init| :: (init + [e])[m] == init[m];
    assert (init + [e])[|init|] == e;
  }

  lemma WithoutMiddle(a: seq<Entry>, x: Entry, b: seq<Entry>, code: Code)
    requires x.code != code
    ensures Without(a + [x] + b, code) == Without(a, code) + [x] + Without(b, code)
  {
    WithoutConcat(a + [x], b, code);
    WithoutConcat(a, [x], code);
    assert Without([x], code) == [x];
  }

  lemma SinceAppend(init: seq<Entry>, e: Entry, n: nat)
    requires n < |init|
    ensures CodesSince(init + [e], n) == CodesSince(init, n) + {e.code}
  {
    assert forall m | 0 <= m < |init| :: (init + [e])[m] == init[m];
    assert (init + [e])[|init|].code in CodesSince(init + [e], n);
  }

  lemma {:induction false} LookupInDistinct(s: seq<Entry>, k: nat)
    requires DistinctCodes(s) && k < |s|
    ensures Lookup(s, s[k].code) == Some(s[k].id)
  {
    if k > 0 {
      LookupInDistinct(s[1..], k - 1);
    }
  }

  lemma CappedDistinct(s: seq<Entry>)
    requires DistinctCodes(s)
    ensures DistinctCodes(Capped(s))
  {
  }

  /** A code looks up to the id last written for it, unless twenty or more other
      codes have been written since; a code never written looks up to nothing. */
  lemma LookupFinds(written: seq<Entry>, n: nat)
    requires LastWriteOf(written, n)
    ensures Lookup(Capped(Recency(written)), written[n].code)
            == if |CodesSince(written, n)| < 20 then Some(written[n].id) else None
  {
    var older, newer := RecencySplits(written, n);
    RecencyDistinct(written);
    hide Recency;
    LookupSplit(older, written[n], newer);
    DistinctCount(newer);
  }

  lemma EvictOldest(s: seq<Entry>)
    requires |s| > CAP
    ensures Capped(s[1..]) == Capped(s)
  {
  }

  /** A write on the capped record is the cap of the longer record, and is found. */
  lemma WriteFound(written: seq<Entry>, e: Entry)
    ensures var after := Capped(Recency(written + [e]));
            after == Written(Capped(Recency(written)), e) && Lookup(after, e.code) == Some(e.id)
  {
    RecencyDistinct(written);
    CappedWrite(Recency(written), e);
    RecencyAppend(written, e);
    NothingSince(written, e);
    hide Recency, Without, Lookup, Capped, CodesSince;
    LookupFinds(written + [e], |written|);
  }

  /** In a list of distinct codes an entry is found below the cap exactly when
      fewer than the cap follow it. */
  lemma LookupSplit(older: seq<Entry>, x: Entry, newer: seq<Entry>)
    requires DistinctCodes(older + [x] + newer)
    ensures DistinctCodes(newer)
    ensures Lookup(Capped(older + [x] + newer), x.code) == if |newer| < CAP then Some(x.id) else None
  {
    var full := older + [x] + newer;
    var jar := Capped(full);
    CappedDistinct(full);
    assert full[|older|] == x;
    assert forall k | 0 <= k < |newer| :: newer[k] == full[|older| + 1 + k];
    if |newer| < CAP {
      var k := |jar| - 1 - |newer|;
      assert jar[k] == x;
      LookupInDistinct(jar, k);
    } else {
      assert forall k | 0 <= k < |jar| :: jar[k] == full[|full| - CAP + k];
      assert x.code !in CodesOf(jar);
    }
  }

  lemma CappedWithin(s: seq<Entry>)
    ensures CodesOf(Capped(s)) <= CodesOf(s)
  {
    if |s| > CAP {
      CodesConcat(s[..|s| - CAP], Capped(s));
      assert s[..|s| - CAP] + Capped(s) == s;
    }
  }

  lemma LookupUnwritten(written: seq<Entry>, code: Code)
    ensures Lookup(Capped(Recency(written)), code).Some? ==> code in CodesOf(written)
  {
    hide Recency, Capped, Lookup, CodesOf;
    RecencyDistinct(written);
    CappedWithin(Recency(written));
  }

  // ------------------------------------------------------------ the jar

  class ParticipantCookie {
    var entries: seq<Entry>
    /** The flat `participant_id` key of old cookies, never read. */
    var legacy: Option<int>
    /** Every write so far, for the specification only. */
    ghost var written: seq<Entry>

    ghost predicate Valid()
      reads this
    {
      entries == Capped(Recency(written))
    }

    constructor (legacy: Option<int>)
      ensures Valid() && written == [] && this.legacy == legacy
    {
      entries, written := [], [];
      this.legacy := legacy;
    }

    /** Any old flat key is dropped; the entry is re-inserted last. */
    method Set(code: Code, id: PersonId)
      requires Valid()
      modifies this
      ensures Valid() && written == old(written) + [Entry(code, id)]
      ensures entries == Written(old(entries), Entry(code, id)) && legacy == None
      ensures |entries| <= 20 && Lookup(entries, code) == Some(id)
    {
      WriteFound(written, Entry(code, id));
      hide Recency, Without, Lookup, Capped;
      legacy := None;
      var participants := Without(entries, code) + [Entry(code, id)];
      ghost var all := participants;
      while |participants| > CAP
        invariant Capped(participants) == Capped(all)
        modifies {}
      {
        EvictOldest(participants);
        participants := participants[1..];
      }
      CappedOf(participants);
      entries := participants;
      written := written + [Entry(code, id)];
    }

    /** Reading also drops an old flat key, and never consults it. */
    method Get(code: Code) returns (id: Option<PersonId>)
      requires Valid()
      modifies this`legacy
      ensures legacy == None
      ensures forall n: nat | LastWriteOf(written, n) && written[n].code == code ::
                id == if |CodesSince(written, n)| < 20 then Some(written[n].id) else None
      ensures id.Some? ==> code in CodesOf(written)
    {
      legacy := None;
      id := Lookup(entries, code);
      forall n: nat | LastWriteOf(written, n) && written[n].code == code
        ensures id == if |CodesSince(written, n)| < 20 then Some(written[n].id) else None
      {
        LookupFinds(written, n);
      }
      LookupUnwritten(written, code);
    }
  }
}
