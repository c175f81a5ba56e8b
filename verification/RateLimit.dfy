/** The fixed-window limiter: one bucket per client, opportunistic pruning, and what a client can get through. */
module RateLimit {
  import opened Prelude

  datatype Bucket = Bucket(count: nat, start: int)

  type Buckets = map<string, Bucket>

  predicate Elapsed(b: Bucket, window: int, now: int) {
    now - b.start >= window
  }

  /** One client's bucket and answer, without pruning. */
  function Next(b: Option<Bucket>, limit: int, window: int, now: int): (Bucket, bool) {
    if b.None? || Elapsed(b.value, window, now) then (Bucket(1, now), true)
    else if b.value.count >= limit then (b.value, false)
    else (b.value.(count := b.value.count + 1), true)
  }

  function Lookup(buckets: Buckets, key: string): Option<Bucket> {
    if key in buckets then Some(buckets[key]) else None
  }

  function Prune(buckets: Buckets, window: int, now: int): Buckets {
    map k | k in buckets && !Elapsed(buckets[k], window, now) :: buckets[k]
  }

  /** The limiter as it runs: opening a new window prunes every elapsed bucket. */
  function AllowPruning(buckets: Buckets, limit: int, window: int, key: string, now: int): (Buckets, bool) {
    var b := Lookup(buckets, key);
    var next := buckets[key := Next(b, limit, window, now).0];
    (if b.None? || Elapsed(b.value, window, now) then Prune(next, window, now) else next, Next(b, limit, window, now).1)
  }

  /** The limiter that never forgets a bucket. */
  function AllowKeeping(buckets: Buckets, limit: int, window: int, key: string, now: int): (Buckets, bool) {
    (buckets[key := Next(Lookup(buckets, key), limit, window, now).0], Next(Lookup(buckets, key), limit, window, now).1)
  }

  datatype Request = Request(key: string, now: int)

  function AnswersPruning(buckets: Buckets, limit: int, window: int, reqs: seq<Request>): seq<bool>
    decreases |reqs|
  {
    if reqs == [] then []
    else
      var (next, ok) := AllowPruning(buckets, limit, window, reqs[0].key, reqs[0].now);
      [ok] + AnswersPruning(next, limit, window, reqs[1..])
  }

  function AnswersKeeping(buckets: Buckets, limit: int, window: int, reqs: seq<Request>): seq<bool>
    decreases |reqs|
  {
    if reqs == [] then []
    else
      var (next, ok) := AllowKeeping(buckets, limit, window, reqs[0].key, reqs[0].now);
      [ok] + AnswersKeeping(next, limit, window, reqs[1..])
  }

  /** Times that never go back, from `since` on. */
  predicate Ordered(reqs: seq<Request>, since: int) {
    reqs == [] || (reqs[0].now >= since && Ordered(reqs[1..], reqs[0].now))
  }

  /** The pruned buckets are those of the keeping limiter less some that have elapsed by now. */
  ghost predicate PrunedOf(p: Buckets, k: Buckets, window: int, now: int) {
    && (forall key :: key in p ==> key in k && p[key] == k[key])
    && (forall key :: key in k && key !in p ==> Elapsed(k[key], window, now))
  }

  lemma PruneStep(p: Buckets, k: Buckets, limit: int, window: int, key: string, since: int, now: int)
    requires PrunedOf(p, k, window, since) && since <= now
    ensures var (p', a), (k', b) := AllowPruning(p, limit, window, key, now), AllowKeeping(k, limit, window, key, now);
            a == b && PrunedOf(p', k', window, now)
  {
  }

  /** With times that never go back, pruning never changes an answer. */
  lemma {:induction false} PruningIsInvisible(p: Buckets, k: Buckets, limit: int, window: int, reqs: seq<Request>,
                                              since: int)
    requires PrunedOf(p, k, window, since) && Ordered(reqs, since)
    ensures AnswersPruning(p, limit, window, reqs) == AnswersKeeping(k, limit, window, reqs)
    decreases |reqs|
  {
    if reqs == [] {
    } else {
      var r := reqs[0];
      PruneStep(p, k, limit, window, r.key, since, r.now);
      PruningIsInvisible(AllowPruning(p, limit, window, r.key, r.now).0, AllowKeeping(k, limit, window, r.key, r.now).0,
                         limit, window, reqs[1..], r.now);
    }
  }

  /** What one window lets through: its first request even where the limit is not positive. */
  function PerWindow(limit: int): nat {
    if limit < 1 then 1 else limit
  }

  /** n requests of one client at one time. */
  function Burst(key: string, t: int, n: nat): seq<Request> {
    if n == 0 then [] else [Request(key, t)] + Burst(key, t, n - 1)
  }

  lemma BurstCons(key: string, t: int, n: nat, rest: seq<Request>)
    requires n > 0
    ensures Burst(key, t, n) + rest == [Request(key, t)] + (Burst(key, t, n - 1) + rest)
  {
  }

  lemma AnswersCons(p: Buckets, k: Buckets, limit: int, window: int, r: Request, rest: seq<Request>)
    ensures var (p', a) := AllowPruning(p, limit, window, r.key, r.now);
            AnswersPruning(p, limit, window, [r] + rest) == [a] + AnswersPruning(p', limit, window, rest)
    ensures var (k', b) := AllowKeeping(k, limit, window, r.key, r.now);
            AnswersKeeping(k, limit, window, [r] + rest) == [b] + AnswersKeeping(k', limit, window, rest)
  {
    assert ([r] + rest)[1..] == rest;
  }

  lemma OneMoreAllowed(count: nat, limit: int, window: int, key: string, t: int)
    requires count < limit && window > 0
    ensures var before, after := map[key := Bucket(count, t)], map[key := Bucket(count + 1, t)];
            && AllowPruning(before, limit, window, key, t) == (after, true)
            && AllowKeeping(before, limit, window, key, t) == (after, true)
  {
    assert map[key := Bucket(count, t)][key := Bucket(count + 1, t)] == map[key := Bucket(count + 1, t)];
  }

  lemma FirstAllowed(limit: int, window: int, key: string, t: int)
    requires window > 0
    ensures AllowPruning(map[], limit, window, key, t) == (map[key := Bucket(1, t)], true)
    ensures AllowKeeping(map[], limit, window, key, t) == (map[key := Bucket(1, t)], true)
  {
    var one: Buckets := map[key := Bucket(1, t)];
    assert Prune(one, window, t) == one;
  }

  lemma SameAnswerFirst(a: bool, x: seq<bool>, y: seq<bool>)
    requires x != y
    ensures [a] + x != [a] + y
  {
    assert ([a] + x)[1..] == x && ([a] + y)[1..] == y;
  }

  ghost predicate Differ(buckets: Buckets, limit: int, window: int, reqs: seq<Request>) {
    AnswersPruning(buckets, limit, window, reqs) != AnswersKeeping(buckets, limit, window, reqs)
  }

  lemma DifferEarlier(before: Buckets, after: Buckets, limit: int, window: int, r: Request, rest: seq<Request>)
    requires AllowPruning(before, limit, window, r.key, r.now) == (after, true)
    requires AllowKeeping(before, limit, window, r.key, r.now) == (after, true)
    requires Differ(after, limit, window, rest)
    ensures Differ(before, limit, window, [r] + rest)
  {
    AnswersCons(before, before, limit, window, r, rest);
    SameAnswerFirst(true, AnswersPruning(after, limit, window, rest), AnswersKeeping(after, limit, window, rest));
  }

  /** While a client uses up its budget in one burst the two limiters agree and nothing is dropped. */
  lemma {:induction false} BurstFills(count: nat, limit: int, window: int, key: string, t: int, n: nat,
                                      rest: seq<Request>)
    requires count + n <= limit && window > 0
    requires Differ(map[key := Bucket(count + n, t)], limit, window, rest)
    ensures Differ(map[key := Bucket(count, t)], limit, window, Burst(key, t, n) + rest)
    decreases n
  {
    if n == 0 {
      assert Burst(key, t, 0) + rest == rest;
    } else {
      var before: Buckets := map[key := Bucket(count, t)];
      var after: Buckets := map[key := Bucket(count + 1, t)];
      var later := Burst(key, t, n - 1) + rest;
      BurstCons(key, t, n, rest);
      OneMoreAllowed(count, limit, window, key, t);
      BurstFills(count + 1, limit, window, key, t, n - 1, rest);
      DifferEarlier(before, after, limit, window, Request(key, t), later);
    }
  }

  /** A client that has used up its budget, another one a window later, and the first again with the clock set back. */
  lemma BackStepShows(limit: int, window: int, t: int, back: int)
    requires window > 0 && back < t
    ensures Differ(map["a" := Bucket(PerWindow(limit), t - window)], limit, window,
                   [Request("b", t), Request("a", back)])
  {
    var full: Buckets := map["a" := Bucket(PerWindow(limit), t - window)];
    var last := Request("a", back);
    assert [Request("b", t), last] == [Request("b", t)] + [last] && [last] == [last] + [];
    AnswersCons(full, full, limit, window, Request("b", t), [last]);
    var p, k := AllowPruning(full, limit, window, "b", t).0, AllowKeeping(full, limit, window, "b", t).0;
    assert "a" !in p && k["a"] == Bucket(PerWindow(limit), t - window);
    AnswersCons(p, k, limit, window, last, []);
    assert ([true] + ([true] + []))[1] != ([true] + ([false] + []))[1];
  }

  /** Any step back of the clock can make pruning visible, from an empty limiter on and for every limit: a bucket
      dropped by another client's later request would still have refused. So non-decreasing times are what it takes. */
  lemma PruningShowsWhenTimeGoesBack(limit: int, window: int, t: int, back: int)
    requires window > 0 && back < t
    ensures var reqs := [Request("a", t - window)] + (Burst("a", t - window, PerWindow(limit) - 1)
                                                      + [Request("b", t), Request("a", back)]);
            Differ(map[], limit, window, reqs)
  {
    var t0, last := t - window, [Request("b", t), Request("a", back)];
    var rest := Burst("a", t0, PerWindow(limit) - 1) + last;
    var one: Buckets := map["a" := Bucket(1, t0)];
    AnswersCons(map[], map[], limit, window, Request("a", t0), rest);
    FirstAllowed(limit, window, "a", t0);
    BackStepShows(limit, window, t, back);
    if limit < 1 {
      assert rest == last;
    } else {
      BurstFills(1, limit, window, "a", t0, limit - 1, last);
    }
    SameAnswerFirst(true, AnswersPruning(one, limit, window, rest), AnswersKeeping(one, limit, window, rest));
  }

  lemma {:induction false} OneAnswerEach(buckets: Buckets, limit: int, window: int, reqs: seq<Request>)
    ensures |AnswersPruning(buckets, limit, window, reqs)| == |reqs|
    decreases |reqs|
  {
    if reqs == [] {
    } else {
      OneAnswerEach(AllowPruning(buckets, limit, window, reqs[0].key, reqs[0].now).0, limit, window, reqs[1..]);
    }
  }

  lemma RefusedChangesNothing(buckets: Buckets, limit: int, window: int, key: string, now: int)
    requires !AllowPruning(buckets, limit, window, key, now).1
    ensures AllowPruning(buckets, limit, window, key, now).0 == buckets
  {
    assert buckets[key := buckets[key]] == buckets;
  }

  lemma LeftOutLater<T>(x: T, xs: seq<T>, k: nat)
    requires 0 < k <= |xs|
    ensures ([x] + xs)[..k] + ([x] + xs)[k + 1..] == [x] + (xs[..k - 1] + xs[k..])
  {
  }

  /** A refused request changes no later answer: without it, all the others are answered as they were. */
  lemma {:induction false} RefusedIsInvisible(buckets: Buckets, limit: int, window: int, reqs: seq<Request>, k: nat)
    requires k < |reqs| == |AnswersPruning(buckets, limit, window, reqs)|
    requires !AnswersPruning(buckets, limit, window, reqs)[k]
    ensures var answers := AnswersPruning(buckets, limit, window, reqs);
            AnswersPruning(buckets, limit, window, reqs[..k] + reqs[k + 1..]) == answers[..k] + answers[k + 1..]
    decreases k
  {
    var r, rest := reqs[0], reqs[1..];
    var (next, ok) := AllowPruning(buckets, limit, window, r.key, r.now);
    var later := AnswersPruning(next, limit, window, rest);
    assert reqs == [r] + rest && AnswersPruning(buckets, limit, window, reqs) == [ok] + later;
    if k == 0 {
      RefusedChangesNothing(buckets, limit, window, r.key, r.now);
      assert reqs[..0] + rest == rest;
    } else {
      OneAnswerEach(next, limit, window, rest);
      RefusedIsInvisible(next, limit, window, rest, k - 1);
      LeftOutLater(r, rest, k);
      LeftOutLater(ok, later, k);
      AnswersCons(buckets, buckets, limit, window, r, rest[..k - 1] + rest[k..]);
    }
  }

  /** The requests are one client's, all within the window that started then. */
  predicate WithinWindow(reqs: seq<Request>, key: string, start: int, window: int) {
    forall k :: 0 <= k < |reqs| ==> reqs[k].key == key && reqs[k].now < start + window
  }

  lemma {:induction false} RestOfWindow(buckets: Buckets, limit: int, window: int, reqs: seq<Request>, key: string,
                                        k: nat)
    requires key in buckets && WithinWindow(reqs, key, buckets[key].start, window)
    requires k < |reqs| == |AnswersPruning(buckets, limit, window, reqs)|
    ensures AnswersPruning(buckets, limit, window, reqs)[k] <==> buckets[key].count + k < limit
    decreases k
  {
    if k > 0 {
      var next := AllowPruning(buckets, limit, window, key, reqs[0].now).0;
      OneAnswerEach(next, limit, window, reqs[1..]);
      RestOfWindow(next, limit, window, reqs[1..], key, k - 1);
    }
  }

  /** A window opens with a client's first request, or the first one after its last window has elapsed, and lets exactly
      the first `limit` requests of that client through, counting that one, which is let through in any case. */
  lemma WindowAllowsExactly(buckets: Buckets, limit: int, window: int, reqs: seq<Request>, key: string, k: nat)
    requires window > 0 && k < |reqs| == |AnswersPruning(buckets, limit, window, reqs)|
    requires WithinWindow(reqs, key, reqs[0].now, window)
    requires key in buckets ==> reqs[0].now >= buckets[key].start + window
    ensures AnswersPruning(buckets, limit, window, reqs)[k] <==> k == 0 || k < limit
  {
    var next := AllowPruning(buckets, limit, window, key, reqs[0].now).0;
    OneAnswerEach(next, limit, window, reqs[1..]);
    if k > 0 {
      assert next[key] == Bucket(1, reqs[0].now);
      RestOfWindow(next, limit, window, reqs[1..], key, k - 1);
    }
  }

  // ---- how much one client gets through ----

  /** Allowed requests of one client within [from, from + window), its bucket being b before them. */
  function AllowedIn(b: Option<Bucket>, limit: int, window: int, times: seq<int>, from: int): nat
    decreases |times|
  {
    if times == [] then 0
    else
      var (next, ok) := Next(b, limit, window, times[0]);
      (if ok && from <= times[0] < from + window then 1 else 0) + AllowedIn(Some(next), limit, window, times[1..], from)
  }

  predicate Monotone(times: seq<int>, since: int) {
    times == [] || (times[0] >= since && Monotone(times[1..], times[0]))
  }

  /** What can still be allowed within the interval, given the client's bucket. */
  function Remaining(b: Option<Bucket>, limit: int, window: int, from: int): int {
    var most := PerWindow(limit);
    if b.None? || b.value.start + window < from then 2 * most - 1
    else (if most > b.value.count then most - b.value.count else 0) + if b.value.start >= from then 0 else most
  }

  lemma {:induction false} AllowedBound(b: Option<Bucket>, limit: int, window: int, times: seq<int>, from: int,
                                        since: int)
    requires Monotone(times, since) && window > 0
    requires b.Some? ==> 1 <= b.value.count && b.value.start <= since
    ensures AllowedIn(b, limit, window, times, from) <= Remaining(b, limit, window, from)
    decreases |times|
  {
    if times == [] {
    } else {
      var t := times[0];
      var (next, ok) := Next(b, limit, window, t);
      AllowedBound(Some(next), limit, window, times[1..], from, t);
      if t >= from + window {
        NothingAfter(Some(next), limit, window, times[1..], from, t);
      }
    }
  }

  lemma {:induction false} NothingAfter(b: Option<Bucket>, limit: int, window: int, times: seq<int>, from: int,
                                        since: int)
    requires Monotone(times, since) && since >= from + window
    ensures AllowedIn(b, limit, window, times, from) == 0
    decreases |times|
  {
    if times == [] {
    } else {
      NothingAfter(Some(Next(b, limit, window, times[0]).0), limit, window, times[1..], from, times[0]);
    }
  }

  /** The request times of one client. */
  function TimesOf(reqs: seq<Request>, key: string): seq<int> {
    if reqs == [] then [] else (if reqs[0].key == key then [reqs[0].now] else []) + TimesOf(reqs[1..], key)
  }

  /** Requests of one client that were let through within [from, from + window). */
  function LetThrough(reqs: seq<Request>, answers: seq<bool>, key: string, window: int, from: int): nat
    requires |reqs| == |answers|
  {
    if reqs == [] then 0
    else (if answers[0] && reqs[0].key == key && from <= reqs[0].now < from + window then 1 else 0)
         + LetThrough(reqs[1..], answers[1..], key, window, from)
  }

  lemma {:induction false} TimesMonotone(reqs: seq<Request>, key: string, since: int, lower: int)
    requires Ordered(reqs, since) && lower <= since
    ensures Monotone(TimesOf(reqs, key), lower)
    decreases |reqs|
  {
    if reqs == [] {
    } else {
      TimesMonotone(reqs[1..], key, reqs[0].now, if reqs[0].key == key then reqs[0].now else lower);
      if reqs[0].key == key {
        assert TimesOf(reqs, key)[1..] == TimesOf(reqs[1..], key);
      } else {
        assert TimesOf(reqs, key) == TimesOf(reqs[1..], key);
      }
    }
  }

  /** Clients do not affect each other. */
  lemma {:induction false} ClientsAreIndependent(k: Buckets, limit: int, window: int, reqs: seq<Request>,
                                                 key: string, from: int)
    ensures |AnswersKeeping(k, limit, window, reqs)| == |reqs|
    ensures LetThrough(reqs, AnswersKeeping(k, limit, window, reqs), key, window, from)
            == AllowedIn(Lookup(k, key), limit, window, TimesOf(reqs, key), from)
    decreases |reqs|
  {
    if reqs == [] {
    } else {
      var r := reqs[0];
      var (next, ok) := AllowKeeping(k, limit, window, r.key, r.now);
      ClientsAreIndependent(next, limit, window, reqs[1..], key, from);
      var answers := AnswersKeeping(k, limit, window, reqs);
      assert answers[1..] == AnswersKeeping(next, limit, window, reqs[1..]);
      if r.key == key {
        assert TimesOf(reqs, key)[1..] == TimesOf(reqs[1..], key);
      } else {
        assert TimesOf(reqs, key) == TimesOf(reqs[1..], key);
        assert Lookup(next, key) == Lookup(k, key);
      }
    }
  }

  /** From an empty limiter and with times that never go back, every client gets at most 2 * max(1, limit) - 1
      requests through in any interval of one window length. */
  lemma BurstBound(limit: int, window: int, reqs: seq<Request>, since: int, key: string, from: int)
    requires Ordered(reqs, since) && window > 0
    ensures |AnswersPruning(map[], limit, window, reqs)| == |reqs|
    ensures LetThrough(reqs, AnswersPruning(map[], limit, window, reqs), key, window, from)
            <= 2 * (if limit < 1 then 1 else limit) - 1
  {
    PruningIsInvisible(map[], map[], limit, window, reqs, since);
    ClientsAreIndependent(map[], limit, window, reqs, key, from);
    TimesMonotone(reqs, key, since, since);
    AllowedBound(None, limit, window, TimesOf(reqs, key), from, since);
  }

  function Repeat(t: int, n: nat): (ts: seq<int>)
    ensures |ts| == n && forall k :: 0 <= k < n ==> ts[k] == t
  {
    if n == 0 then [] else [t] + Repeat(t, n - 1)
  }

  lemma {:induction false} FillWindow(count: nat, start: int, limit: int, window: int, t: int, n: nat,
                                      rest: seq<int>, from: int)
    requires count + n <= limit && start <= t < start + window
    ensures AllowedIn(Some(Bucket(count, start)), limit, window, Repeat(t, n) + rest, from)
            == (if from <= t < from + window then n else 0)
               + AllowedIn(Some(Bucket(count + n, start)), limit, window, rest, from)
    decreases n
  {
    if n == 0 {
      assert Repeat(t, 0) + rest == rest;
    } else {
      FillWindow(count + 1, start, limit, window, t, n - 1, rest, from);
      assert (Repeat(t, n) + rest)[1..] == Repeat(t, n - 1) + rest;
    }
  }

  /** The bound is reached: one early request, the rest of its window at its end, a full window right after. */
  lemma BurstBoundIsTight(limit: nat, window: int)
    requires limit >= 1 && window >= 2
    ensures var times := [0] + (Repeat(window - 1, limit - 1) + ([window] + Repeat(window, limit - 1)));
            AllowedIn(None, limit, window, times, window - 1) == 2 * limit - 1
  {
    var late, next := Repeat(window - 1, limit - 1), [window] + Repeat(window, limit - 1);
    var from := window - 1;
    assert ([0] + (late + next))[1..] == late + next;
    FillWindow(1, 0, limit, window, window - 1, limit - 1, next, from);
    assert next[1..] == Repeat(window, limit - 1);
    assert Repeat(window, limit - 1) + [] == Repeat(window, limit - 1);
    FillWindow(1, window, limit, window, window, limit - 1, [], from);
  }

  // ---- the limiter ----

  class Limiter {
    const limit: int
    const window: int
    var buckets: Buckets

    constructor (limit: int, window: int)
      ensures this.limit == limit && this.window == window && buckets == map[]
    {
      this.limit, this.window, buckets := limit, window, map[];
    }

    method Allow(key: string, now: int) returns (ok: bool)
      modifies this
      ensures (buckets, ok) == AllowPruning(old(buckets), limit, window, key, now)
    {
      if key !in buckets || now - buckets[key].start >= window {
        buckets := buckets[key := Bucket(1, now)];
        PruneLocked(now);
        return true;
      }
      if buckets[key].count >= limit {
        assert buckets[key := buckets[key]] == buckets;
        return false;
      }
      buckets := buckets[key := buckets[key].(count := buckets[key].count + 1)];
      return true;
    }

    /** Drop the buckets whose window has elapsed. */
    method PruneLocked(now: int)
      modifies this
      ensures buckets == Prune(old(buckets), window, now)
    {
      var rest := buckets.Keys;
      while rest != {}
        invariant rest <= buckets.Keys <= old(buckets).Keys
        invariant forall k :: k in buckets ==> buckets[k] == old(buckets)[k]
        invariant forall k :: k in old(buckets) ==>
                  (k in buckets <==> k in rest || !Elapsed(old(buckets)[k], window, now))
        decreases |rest|
      {
        var k :| k in rest;
        rest := rest - {k};
        if now - buckets[k].start >= window {
          buckets := buckets - {k};
        }
      }
    }
  }
}
