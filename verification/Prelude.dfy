/** Small shared vocabulary: optional values and facts about finite sets and
    sequences that the voting proofs lean on. */
module Prelude {
  datatype Option<+T> = None | Some(value: T)

  datatype Result<+T> = Ok(value: T) | Err(message: string)

  /** No value occurs at two positions. */
  ghost predicate NoRepeats<T>(s: seq<T>) {
    forall j, k | 0 <= j < k < |s| :: s[j] != s[k]
  }

  lemma SubsetSize<T>(a: set<T>, b: set<T>)
    requires a <= b
    ensures |a| <= |b|
    ensures |a| == |b| ==> a == b
  {
    assert b == a + (b - a);
    assert |b| == |a| + |b - a|;
    if |a| == |b| {
      assert b - a == {};
    }
  }

  lemma NothingLeft<T>(part: set<T>, all: set<T>)
    requires part <= all
    ensures all - part == {} <==> |part| == |all|
  {
    SubsetSize(part, all);
    if all - part == {} {
      assert forall x | x in all :: x !in all - part;
      assert part == all;
    }
  }

  lemma KeysCount<K, V>(m: map<K, V>)
    ensures |m| == |m.Keys|
  {
  }

  lemma UnionSize<T>(whole: set<T>, a: set<T>, b: set<T>)
    requires whole <= a + b
    ensures |whole| <= |a| + |b|
  {
    SubsetSize(whole, a + (b - a));
    SubsetSize(b - a, b);
  }

  /** A finite, nonempty set of naturals has a greatest element. */
  lemma {:induction false} GreatestExists(s: set<nat>) returns (m: nat)
    requires s != {}
    ensures m in s && forall k | k in s :: k <= m
  {
    m :| m in s;
    if exists k :: k in s && m < k {
      var rest := set k | k in s && m < k;
      SubsetSize(rest, s - {m});
      var below := m;
      m := GreatestExists(rest);
      assert forall k | k in s :: k <= below || k in rest;
    }
  }
}
