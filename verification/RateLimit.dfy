/** The sliding-window limiter in front of joining by code: a queue of recent
    hits per key, pruned on the way, that answers as the full log of all hits
    would. Models app/ratelimit.py; timestamps are reals. */
module RateLimit {
  import opened Prelude

  datatype Hit = Hit(key: string, at: real)

  const SWEEP_ABOVE: nat := 256

  // ------------------------------------------------------------ the full log

  /** The hits of `key` in the closed interval, by their places in the log. */
  function HitsBetween(log: seq<Hit>, key: string, lo: real, hi: real): set<nat> {
    set n: nat | n < |log| && log[n].key == key && lo <= log[n].at <= hi
  }

  ghost predicate ClockOrder(log: seq<Hit>) {
    forall m, n | 0 <= m < n < |log| :: log[m].at <= log[n].at
  }

  /** What the limiter should say of hit `n`: it is let through when the window
      ending with it holds at most `maxHits` hits of its key, itself included. */
  predicate LetThrough(log: seq<Hit>, n: nat, window: real, maxHits: int)
    requires n < |log|
  {
    |HitsBetween(log[..n + 1], log[n].key, log[n].at - window, log[n].at)| <= maxHits
  }

  function Admitted(log: seq<Hit>, key: string, lo: real, hi: real, window: real, maxHits: int): set<nat> {
    set n: nat | n < |log| && log[n].key == key && lo <= log[n].at <= hi && LetThrough(log, n, window, maxHits)
  }

  /** The throttle's promise: no stretch of time as long as the window ever sees
      more than `maxHits` admitted hits of one key. */
  lemma AdmittedAtMost(log: seq<Hit>, key: string, lo: real, window: real, maxHits: int)
    requires ClockOrder(log)
    ensures var admitted := Admitted(log, key, lo, lo + window, window, maxHits);
            admitted == {} || |admitted| <= maxHits
  {
    var admitted := Admitted(log, key, lo, lo + window, window, maxHits);
    if admitted != {} {
      var last := GreatestExists(admitted);
      var counted := HitsBetween(log[..last + 1], key, log[last].at - window, log[last].at);
      forall n | n in admitted ensures n in counted {
        assert n <= last && log[..last + 1][n] == log[n];
      }
      SubsetSize(admitted, counted);
    }
  }

  // ------------------------------------------------------------ queues

  function TimesOf(log: seq<Hit>, key: string): seq<real> {
    if log == [] then []
    else TimesOf(log[..|log| - 1], key) + (if log[|log| - 1].key == key then [log[|log| - 1].at] else [])
  }

  function Recent(times: seq<real>, cutoff: real): (r: seq<real>)
    ensures forall i | 0 <= i < |r| :: r[i] >= cutoff
  {
    if times == [] then []
    else (if times[0] >= cutoff then [times[0]] else []) + Recent(times[1..], cutoff)
  }

  ghost predicate Sorted(times: seq<real>) {
    forall i, j | 0 <= i < j < |times| :: times[i] <= times[j]
  }

  ghost predicate UpTo(times: seq<real>, now: real) {
    forall i | 0 <= i < |times| :: times[i] <= now
  }

  lemma {:induction false} RecentAppend(times: seq<real>, t: real, cutoff: real)
    ensures Recent(times + [t], cutoff) == Recent(times, cutoff) + (if t >= cutoff then [t] else [])
  {
    if times == [] {
      assert times + [t] == [t];
    } else {
      assert (times + [t])[1..] == times[1..] + [t];
      RecentAppend(times[1..], t, cutoff);
    }
  }

  lemma {:induction false} AllRecent(times: seq<real>, cutoff: real)
    requires forall i | 0 <= i < |times| :: times[i] >= cutoff
    ensures Recent(times, cutoff) == times
  {
    if times != [] {
      AllRecent(times[1..], cutoff);
    }
  }

  /** Pruning at one cutoff is invisible from any later one. */
  lemma {:induction false} RecentTwice(times: seq<real>, early: real, late: real)
    requires early <= late
    ensures Recent(Recent(times, early), late) == Recent(times, late)
  {
    if times != [] {
      RecentTwice(times[1..], early, late);
      var rest := Recent(times[1..], early);
      if times[0] >= early {
        assert ([times[0]] + rest)[1..] == rest;
      } else {
        assert [] + rest == rest;
      }
    }
  }

  lemma {:induction false} RecentSorted(times: seq<real>, cutoff: real, now: real)
    requires Sorted(times) && UpTo(times, now)
    ensures Sorted(Recent(times, cutoff)) && UpTo(Recent(times, cutoff), now)
    ensures forall i | 0 <= i < |Recent(times, cutoff)| :: times != [] && times[0] <= Recent(times, cutoff)[i]
  {
    if times != [] {
      RecentSorted(times[1..], cutoff, now);
      assert |times| > 1 ==> times[0] <= times[1..][0];
    }
  }

  /** The queue's length is the number of logged hits since the cutoff. */
  lemma {:induction false} RecentCounts(log: seq<Hit>, key: string, cutoff: real, now: real)
    requires forall n | 0 <= n < |log| :: log[n].at <= now
    ensures |Recent(TimesOf(log, key), cutoff)| == |HitsBetween(log, key, cutoff, now)|
  {
    if log == [] {
      assert HitsBetween(log, key, cutoff, now) == {};
    } else {
      var n := |log| - 1;
      RecentCounts(log[..n], key, cutoff, now);
      var before, after := HitsBetween(log[..n], key, cutoff, now), HitsBetween(log, key, cutoff, now);
      RecentAppend(TimesOf(log[..n], key), log[n].at, cutoff);
      assert TimesOf(log[..n], key) + [] == TimesOf(log[..n], key);
      if log[n].key == key && log[n].at >= cutoff {
        assert after == before + {n};
      } else {
        assert after == before;
      }
    }
  }

  // ------------------------------------------------------------ the limiter

  function QueueOf(hits: map<string, seq<real>>, key: string): seq<real> {
    if key in hits then hits[key] else []
  }

  /** The queues left by a full sweep. */
  function Swept(hits: map<string, seq<real>>, cutoff: real): map<string, seq<real>> {
    map k | k in hits && Recent(hits[k], cutoff) != [] :: Recent(hits[k], cutoff)
  }

  /** From now on the queues tell as much as the log does. */
  ghost predicate Mirrors(hits: map<string, seq<real>>, log: seq<Hit>, window: real) {
    forall k, c: real | log == [] || log[|log| - 1].at - window <= c ::
      Recent(QueueOf(hits, k), c) == Recent(TimesOf(log, k), c)
  }

  ghost predicate InOrder(hits: map<string, seq<real>>, log: seq<Hit>) {
    forall k | k in hits :: Sorted(hits[k]) && (if log == [] then hits[k] == [] else UpTo(hits[k], log[|log| - 1].at))
  }

  lemma SweptQueue(hits: map<string, seq<real>>, cutoff: real, k: string)
    ensures QueueOf(Swept(hits, cutoff), k) == Recent(QueueOf(hits, k), cutoff)
  {
    assert Recent([], cutoff) == [];
    hide Recent;
  }

  lemma SweepMirrors(hits: map<string, seq<real>>, log: seq<Hit>, window: real)
    requires log != [] && Mirrors(hits, log, window) && InOrder(hits, log)
    ensures var swept := Swept(hits, log[|log| - 1].at - window);
            Mirrors(swept, log, window) && InOrder(swept, log)
  {
    hide Recent, TimesOf, QueueOf, Sorted, UpTo;
    var now := log[|log| - 1].at;
    var cutoff := now - window;
    var swept := Swept(hits, cutoff);
    forall k, c: real | cutoff <= c ensures Recent(QueueOf(swept, k), c) == Recent(TimesOf(log, k), c) {
      SweptQueue(hits, cutoff, k);
      RecentTwice(QueueOf(hits, k), cutoff, c);
    }
    forall k | k in swept ensures Sorted(swept[k]) && UpTo(swept[k], now) {
      RecentSorted(hits[k], cutoff, now);
    }
  }

  /** The queues once a hit is recorded and its own queue pruned. */
  function Recorded(hits: map<string, seq<real>>, key: string, now: real, window: real): map<string, seq<real>> {
    hits[key := Recent(QueueOf(hits, key) + [now], now - window)]
  }

  lemma HitMirrors(hits: map<string, seq<real>>, log: seq<Hit>, window: real, key: string, now: real)
    requires Mirrors(hits, log, window) && (log != [] ==> log[|log| - 1].at <= now)
    ensures Mirrors(Recorded(hits, key, now, window), log + [Hit(key, now)], window)
  {
    var queue, cutoff, longer := QueueOf(hits, key), now - window, log + [Hit(key, now)];
    var more := Recorded(hits, key, now, window);
    assert longer[..|longer| - 1] == log;
    forall k, c: real | cutoff <= c ensures Recent(QueueOf(more, k), c) == Recent(TimesOf(longer, k), c) {
      assert Recent(QueueOf(hits, k), c) == Recent(TimesOf(log, k), c);
      if k == key {
        RecentTwice(queue + [now], cutoff, c);
        RecentAppend(queue, now, c);
        RecentAppend(TimesOf(log, key), now, c);
      } else {
        assert TimesOf(longer, k) == TimesOf(log, k);
      }
    }
  }

  lemma HitInOrder(hits: map<string, seq<real>>, log: seq<Hit>, window: real, key: string, now: real)
    requires InOrder(hits, log) && (log != [] ==> log[|log| - 1].at <= now)
    ensures Sorted(QueueOf(hits, key) + [now])
    ensures InOrder(Recorded(hits, key, now, window), log + [Hit(key, now)])
  {
    var queue, more := QueueOf(hits, key), Recorded(hits, key, now, window);
    RecentSorted(queue + [now], now - window, now);
    hide Recent;
    forall k | k in more ensures Sorted(more[k]) && UpTo(more[k], now) {
    }
  }

  lemma QueuesSorted(hits: map<string, seq<real>>, log: seq<Hit>)
    requires InOrder(hits, log)
    ensures forall k | k in hits :: Sorted(hits[k])
  {
  }

  /** A freshly pruned queue is as long as the log's window is full. */
  lemma QueueCounts(hits: map<string, seq<real>>, log: seq<Hit>, window: real, key: string, now: real, queue: seq<real>)
    requires log != [] && log[|log| - 1].at == now && ClockOrder(log) && Mirrors(hits, log, window)
    requires key in hits && hits[key] == queue
    requires queue == Recent(queue, now - window)
    ensures |queue| == |HitsBetween(log, key, now - window, now)|
  {
    hide HitsBetween, Recent, TimesOf;
    assert Recent(QueueOf(hits, key), now - window) == Recent(TimesOf(log, key), now - window);
    RecentCounts(log, key, now - window, now);
  }

  lemma SweepOf(hits: map<string, seq<real>>, log: seq<Hit>, window: real, k: string, now: real)
    requires log != [] && log[|log| - 1].at == now && ClockOrder(log) && Mirrors(Swept(hits, now - window), log, window)
    requires k in Swept(hits, now - window)
    ensures HitsBetween(log, k, now - window, now) != {}
  {
    hide HitsBetween;
    var queue := Swept(hits, now - window)[k];
    AllRecent(queue, now - window);
    assert Recent(QueueOf(Swept(hits, now - window), k), now - window) == Recent(TimesOf(log, k), now - window);
    RecentCounts(log, k, now - window, now);
  }

  class SlidingWindowLimiter {
    const maxHits: int
    const window: real
    var hits: map<string, seq<real>>
    /** Every hit ever recorded, for the specification only. */
    ghost var log: seq<Hit>

    ghost predicate Valid()
      reads this
    {
      ClockOrder(log) && Mirrors(hits, log, window) && InOrder(hits, log)
    }

    constructor (maxHits: int, window: real)
      ensures this.maxHits == maxHits && this.window == window
      ensures Valid() && log == []
    {
      this.maxHits := maxHits;
      this.window := window;
      hits := map[];
      log := [];
    }

    /** Records a hit and says whether its key is now over the limit, exactly as
        the full log would, for any clock that never runs backwards. Afterwards
        few keys are stored, or only keys with a hit in the current window. */
    method RecordHit(key: string, now: real) returns (over: bool)
      requires Valid()
      requires log != [] ==> log[|log| - 1].at <= now
      modifies this
      ensures Valid() && log == old(log) + [Hit(key, now)]
      ensures over <==> |HitsBetween(log, key, now - window, now)| > maxHits
      ensures over <==> !LetThrough(log, |old(log)|, window, maxHits)
      ensures |hits| <= 256 || forall k | k in hits :: HitsBetween(log, k, now - window, now) != {}
    {
      hide Recent, TimesOf, HitsBetween, Mirrors, InOrder, Swept, Sorted;
      HitMirrors(hits, log, window, key, now);
      HitInOrder(hits, log, window, key, now);
      var queue := QueueOf(hits, key) + [now];
      RecentTwice(queue, now - window, now - window);
      queue := DropStale(queue, now - window);
      hits := hits[key := queue];
      log := log + [Hit(key, now)];
      QueueCounts(hits, log, window, key, now, queue);
      if |hits| > SWEEP_ABOVE {
        ghost var full := hits;
        SweepMirrors(hits, log, window);
        QueuesSorted(hits, log);
        PruneAll(now);
        forall k | k in hits ensures HitsBetween(log, k, now - window, now) != {} {
          SweepOf(full, log, window, k, now);
        }
      }
      assert log[..|log| - 1 + 1] == log;
      over := |queue| > maxHits;
    }

    /** Pops stale timestamps off the left of one queue. */
    static method DropStale(times: seq<real>, cutoff: real) returns (queue: seq<real>)
      requires Sorted(times)
      ensures queue == Recent(times, cutoff)
    {
      queue := times;
      while queue != [] && queue[0] < cutoff
        invariant Sorted(queue) && Recent(queue, cutoff) == Recent(times, cutoff)
      {
        assert Recent(queue, cutoff) == Recent(queue[1..], cutoff);
        queue := queue[1..];
      }
      AllRecent(queue, cutoff);
    }

    /** Drops stale timestamps everywhere, and the keys left without any. */
    method PruneAll(now: real)
      requires forall k | k in hits :: Sorted(hits[k])
      modifies this`hits
      ensures hits == Swept(old(hits), now - window)
    {
      hide Recent, Sorted;
      var cutoff := now - window;
      var keys := hits.Keys;
      while keys != {}
        invariant keys <= hits.Keys <= old(hits).Keys
        invariant forall k | k in keys :: hits[k] == old(hits)[k]
        invariant forall k | k in old(hits) && k !in keys ::
                    if Recent(old(hits)[k], cutoff) == [] then k !in hits
                    else k in hits && hits[k] == Recent(old(hits)[k], cutoff)
      {
        var key :| key in keys;
        var queue := DropStale(hits[key], cutoff);
        hits := if queue == [] then hits - {key} else hits[key := queue];
        keys := keys - {key};
      }
    }
  }
}
