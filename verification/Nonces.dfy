/** The replay protection of the upload handler: a timestamp window plus a bounded nonce cache. */
module Nonces {

  /** Clock readings are nanoseconds; request timestamps and the two limits are whole seconds. */
  const SECOND: int := 1_000_000_000

  type Cache = map<string, int>

  function Key(appKey: string, nonce: string): (k: string)
    ensures k != ""
  {
    appKey + ['\0'] + nonce
  }

  /** The entries that have not expired at `now`. */
  function Live(cache: Cache, now: int, ttl: nat): Cache {
    map k | k in cache && cache[k] >= now - ttl * SECOND :: cache[k]
  }

  /** `kept` is what oldest-first eviction leaves of `live`: at most `max - 1` entries, no more removed than
      needed, and nothing removed is younger than anything kept. Ties may go either way. */
  ghost predicate Evicted(live: Cache, kept: Cache, max: nat) {
    && kept.Keys <= live.Keys
    && (forall k :: k in kept ==> kept[k] == live[k])
    && (if |live| < max then kept == live else |kept| == max - 1)
    && (forall x, y :: x in live && x !in kept && y in kept ==> live[x] <= live[y])
  }

  /** One call of `consumeNonce`: a known live key is refused, any other is remembered. */
  ghost predicate Consumes(cache: Cache, key: string, now: int, ttl: nat, max: nat, after: Cache, used: bool) {
    var live := Live(cache, now, ttl);
    && (used <==> key in live)
    && (used ==> after == live)
    && (!used ==> exists kept :: Evicted(live, kept, max) && after == kept[key := now])
  }

  class Middleware {
    var nonceCache: Cache

    /** Keys contain a NUL separator, so none is empty. */
    ghost predicate Valid()
      reads this
    {
      "" !in nonceCache
    }

    constructor ()
      ensures Valid() && nonceCache == map[]
    {
      nonceCache := map[];
    }

    method Expire(expireBefore: int)
      requires Valid()
      modifies this
      ensures Valid()
      ensures nonceCache == map k | k in old(nonceCache) && old(nonceCache)[k] >= expireBefore :: old(nonceCache)[k]
    {
      var todo := nonceCache.Keys;
      while todo != {}
        invariant todo <= nonceCache.Keys <= old(nonceCache).Keys
        invariant forall k :: k in nonceCache ==>
          nonceCache[k] == old(nonceCache)[k] && (k in todo || nonceCache[k] >= expireBefore)
        invariant forall k :: k in old(nonceCache) && k !in nonceCache ==> old(nonceCache)[k] < expireBefore
        decreases todo
      {
        var k :| k in todo;
        todo := todo - {k};
        if nonceCache[k] < expireBefore {
          nonceCache := nonceCache - {k};
        }
      }
    }

    /** The inner loop: a minimum by time. The empty key marks "none yet" and is never the answer. */
    method Oldest() returns (oldestKey: string)
      requires Valid() && nonceCache != map[]
      ensures oldestKey in nonceCache && forall k :: k in nonceCache ==> nonceCache[oldestKey] <= nonceCache[k]
    {
      var oldestTime := 0;
      oldestKey := "";
      var todo := nonceCache.Keys;
      while todo != {}
        invariant todo <= nonceCache.Keys
        invariant oldestKey == "" ==> todo == nonceCache.Keys
        invariant oldestKey != "" ==> oldestKey in nonceCache && oldestTime == nonceCache[oldestKey]
        invariant oldestKey != "" ==> forall k :: k in nonceCache && k !in todo ==> oldestTime <= nonceCache[k]
        decreases todo
      {
        var k :| k in todo;
        todo := todo - {k};
        if oldestKey == "" || nonceCache[k] < oldestTime {
          oldestKey, oldestTime := k, nonceCache[k];
        }
      }
    }

    /** After an acceptance the cache holds at most the maximum, whatever it held before. */
    method ConsumeNonce(appKey: string, nonce: string, ttlSeconds: int, maxNonces: int, now: int) returns (used: bool)
      requires Valid()
      modifies this
      ensures Valid()
      ensures Consumes(old(nonceCache), Key(appKey, nonce), now, if ttlSeconds > 0 then ttlSeconds else 300,
                       if maxNonces > 0 then maxNonces else 100000, nonceCache, used)
      ensures !used ==> |nonceCache| <= if maxNonces > 0 then maxNonces else 100000
    {
      var ttl, max := ttlSeconds, maxNonces;
      if ttl <= 0 {
        ttl := 300;
      }
      if max <= 0 {
        max := 100000;
      }
      var key := Key(appKey, nonce);
      Expire(now - ttl * SECOND);
      ghost var live := nonceCache;
      assert live == Live(old(nonceCache), now, ttl);
      if key in nonceCache {
        return true;
      }
      while |nonceCache| >= max
        invariant Valid()
        invariant nonceCache.Keys <= live.Keys
        invariant forall k :: k in nonceCache ==> nonceCache[k] == live[k]
        invariant nonceCache == live || |nonceCache| >= max - 1
        invariant forall x, y :: x in live && x !in nonceCache && y in nonceCache ==> live[x] <= live[y]
        invariant |live| < max ==> nonceCache == live
        decreases |nonceCache|
      {
        assert nonceCache != map[];
        var oldestKey := Oldest();
        ghost var before := nonceCache;
        nonceCache := nonceCache - {oldestKey};
        assert nonceCache.Keys == before.Keys - {oldestKey};
        assert |nonceCache.Keys| == |before.Keys| - 1;
      }
      assert Evicted(live, nonceCache, max);
      ghost var kept := nonceCache;
      nonceCache := nonceCache[key := now];
      assert nonceCache.Keys == kept.Keys + {key};
      used := false;
    }

    /** The checks of `Handler` in order, on one clock reading; limits that are not positive are replaced by their
        defaults. */
    method Handle(window: int, ttlSeconds: int, maxNonces: int, r: Request) returns (accepted: bool)
      requires Valid()
      modifies this
      ensures Valid()
      ensures var ttl := if ttlSeconds > 0 then ttlSeconds else 300;
        var max := if maxNonces > 0 then maxNonces else 100000;
        && Handles(Limits(window, ttl, max), old(nonceCache), r, nonceCache, accepted)
        && (accepted <==>
              && r.valid && r.nonce != "" && -window <= r.now / 1_000_000_000 - r.ts <= window
              && (var k := r.appKey + ['\0'] + r.nonce;
                  k in old(nonceCache) ==> old(nonceCache)[k] < r.now - ttl * 1_000_000_000))
    {
      if Abs(Unix(r.now) - r.ts) > window || r.nonce == "" || !r.valid {
        return false;
      }
      var used := ConsumeNonce(r.appKey, r.nonce, ttlSeconds, maxNonces, r.now);
      accepted := !used;
    }
  }

  // ---------- the handler's order of checks ----------

  /** `valid` stands for everything checked besides window and nonce: app key, signature, project. */
  datatype Request = Request(appKey: string, ts: int, nonce: string, valid: bool, now: int)

  datatype Limits = Limits(window: int, ttl: nat, max: nat)

  function Abs(x: int): nat {
    if x < 0 then -x else x
  }

  function Unix(now: int): int {
    now / SECOND
  }

  predicate Admissible(l: Limits, r: Request) {
    Abs(Unix(r.now) - r.ts) <= l.window && r.nonce != "" && r.valid
  }

  /** The nonce is consumed last, once every other check has passed. */
  ghost predicate Handles(l: Limits, cache: Cache, r: Request, after: Cache, accepted: bool) {
    if Admissible(l, r)
    then Consumes(cache, KeyOf(r), r.now, l.ttl, l.max, after, !accepted)
    else after == cache && !accepted
  }

  function KeyOf(r: Request): string {
    Key(r.appKey, r.nonce)
  }

  // ---------- what the cache key stands for ----------

  /** The app key of one pair runs into the nonce of the other, across a NUL of its own. */
  predicate RunsInto(a: string, n: string, b: string, m: string) {
    a + ['\0'] <= b && n == b[|a| + 1..] + ['\0'] + m
  }

  /** Two pairs share a cache key exactly if they are equal, or an app key contains the separator. */
  lemma KeyExactly(a: string, n: string, b: string, m: string)
    ensures Key(a, n) == Key(b, m) <==> (a == b && n == m) || RunsInto(a, n, b, m) || RunsInto(b, m, a, n)
  {
    if Key(a, n) == Key(b, m) {
      if |a| <= |b| {
        KeyPrefix(a, n, b, m);
      } else {
        KeyPrefix(b, m, a, n);
      }
    } else {
      if RunsInto(a, n, b, m) {
        RunsIntoKey(a, n, b, m);
      }
      if RunsInto(b, m, a, n) {
        RunsIntoKey(b, m, a, n);
      }
    }
  }

  lemma KeyPrefix(a: string, n: string, b: string, m: string)
    requires Key(a, n) == Key(b, m) && |a| <= |b|
    ensures (a == b && n == m) || RunsInto(a, n, b, m)
  {
    var k := Key(a, n);
    assert k[..|a|] == a && k[|a|] == '\0' && k[|a| + 1..] == n;
    assert k[..|b|] == b && k[|b|] == '\0' && k[|b| + 1..] == m;
    if |a| < |b| {
      assert b[..|a|] == a && b[|a|] == '\0';
      assert a + ['\0'] == b[..|a| + 1];
      assert n == k[|a| + 1..|b|] + [k[|b|]] + k[|b| + 1..];
      assert k[|a| + 1..|b|] == b[|a| + 1..];
    }
  }

  lemma RunsIntoKey(a: string, n: string, b: string, m: string)
    requires RunsInto(a, n, b, m)
    ensures Key(a, n) == Key(b, m)
  {
    assert b == (a + ['\0']) + b[|a| + 1..];
    assert a + ['\0'] + (b[|a| + 1..] + ['\0'] + m) == b + ['\0'] + m;
  }

  /** So app keys without NUL never share one. */
  lemma KeyInjective(a: string, n: string, b: string, m: string)
    requires '\0' !in a && '\0' !in b
    ensures Key(a, n) == Key(b, m) <==> a == b && n == m
  {
    KeyExactly(a, n, b, m);
    assert (a + ['\0'])[|a|] == '\0' && (b + ['\0'])[|b|] == '\0';
  }

  // ---------- whole runs ----------

  /** Requests in the order their nonces are looked at, with the caches in between and the verdicts. */
  datatype Trace = Trace(reqs: seq<Request>, caches: seq<Cache>, accepted: seq<bool>)

  ghost predicate IsTrace(l: Limits, t: Trace) {
    && l.max > 0
    && |t.accepted| == |t.reqs| && |t.caches| == |t.reqs| + 1
    && t.caches[0] == map[]
    && (forall i :: 0 <= i < |t.reqs| ==> Handles(l, t.caches[i], t.reqs[i], t.caches[i + 1], t.accepted[i]))
    && (forall i, j :: 0 <= i <= j < |t.reqs| ==> t.reqs[i].now <= t.reqs[j].now)
  }

  /** The other keys accepted before position `j` no earlier than request `i`. */
  ghost function Others(t: Trace, j: nat, i: nat): set<string>
    requires j <= |t.reqs| == |t.accepted| && i < |t.reqs|
  {
    set m | 0 <= m < j && t.accepted[m] && t.reqs[m].now >= t.reqs[i].now && KeyOf(t.reqs[m]) != KeyOf(t.reqs[i])
      :: KeyOf(t.reqs[m])
  }

  /** What is cached was accepted at the recorded time. */
  ghost predicate Honest(t: Trace, j: nat)
    requires j <= |t.reqs| == |t.accepted| && |t.caches| == |t.reqs| + 1
  {
    forall k :: k in t.caches[j] ==> Recorded(t, j, k, t.caches[j][k])
  }

  ghost predicate Recorded(t: Trace, j: nat, k: string, time: int)
    requires j <= |t.reqs| == |t.accepted|
  {
    exists m :: 0 <= m < j && t.accepted[m] && KeyOf(t.reqs[m]) == k && t.reqs[m].now == time
  }

  /** An accepted request is still cached, or out of its lifetime, or was pushed out by `max` others. */
  ghost predicate Remembered(l: Limits, t: Trace, j: nat, i: nat)
    requires i < j <= |t.reqs| == |t.accepted| && |t.caches| == |t.reqs| + 1
  {
    var k := KeyOf(t.reqs[i]);
    || (k in t.caches[j] && t.caches[j][k] >= t.reqs[i].now)
    || t.reqs[j - 1].now > t.reqs[i].now + l.ttl * SECOND
    || |Others(t, j, i)| >= l.max
  }

  lemma {:induction false} HonestAlways(l: Limits, t: Trace, j: nat)
    requires IsTrace(l, t) && j <= |t.reqs|
    ensures Honest(t, j)
  {
    if j != 0 {
      HonestAlways(l, t, j - 1);
      var r := t.reqs[j - 1];
      assert Handles(l, t.caches[j - 1], r, t.caches[j - 1 + 1], t.accepted[j - 1]);
      forall k | k in t.caches[j] ensures Recorded(t, j, k, t.caches[j][k]) {
        if t.accepted[j - 1] && k == KeyOf(r) {
          assert t.reqs[j - 1].now == t.caches[j][k];
        } else {
          assert k in t.caches[j - 1] && t.caches[j][k] == t.caches[j - 1][k];
          assert Recorded(t, j - 1, k, t.caches[j - 1][k]);
        }
      }
    }
  }

  /** Nobody is shut out: an admissible request whose app key and nonce were not accepted together before is accepted,
      whatever nonces other app keys have used. */
  lemma {:induction false} UnusedIsAccepted(l: Limits, t: Trace, j: nat)
    requires IsTrace(l, t) && j < |t.reqs| && Admissible(l, t.reqs[j])
    requires forall i :: 0 <= i <= j ==> '\0' !in t.reqs[i].appKey
    requires forall i :: 0 <= i < j && t.accepted[i] ==>
      t.reqs[i].appKey != t.reqs[j].appKey || t.reqs[i].nonce != t.reqs[j].nonce
    ensures t.accepted[j]
  {
    HonestAlways(l, t, j);
    var r := t.reqs[j];
    assert Handles(l, t.caches[j], r, t.caches[j + 1], t.accepted[j]);
    if KeyOf(r) in t.caches[j] {
      assert Recorded(t, j, KeyOf(r), t.caches[j][KeyOf(r)]);
      var m :| 0 <= m < j && t.accepted[m] && KeyOf(t.reqs[m]) == KeyOf(r);
      KeyInjective(t.reqs[m].appKey, t.reqs[m].nonce, r.appKey, r.nonce);
      assert false;
    }
  }

  lemma OthersGrow(t: Trace, j: nat, i: nat)
    requires j < |t.reqs| == |t.accepted| && i < |t.reqs|
    ensures |Others(t, j, i)| <= |Others(t, j + 1, i)|
  {
    Subset(Others(t, j, i), Others(t, j + 1, i));
  }

  lemma {:induction false} Subset(a: set<string>, b: set<string>)
    requires a <= b
    ensures |a| <= |b|
  {
    if a != {} {
      var x :| x in a;
      Subset(a - {x}, b - {x});
    }
  }

  lemma InOthers(t: Trace, j: nat, i: nat, m: nat)
    requires m < j <= |t.reqs| == |t.accepted| && i < |t.reqs|
    requires t.accepted[m] && t.reqs[m].now >= t.reqs[i].now && KeyOf(t.reqs[m]) != KeyOf(t.reqs[i])
    ensures KeyOf(t.reqs[m]) in Others(t, j, i)
  {
  }

  /** Eviction of a key leaves `max` other keys accepted no earlier than it. */
  lemma EvictedByOthers(l: Limits, t: Trace, j: nat, i: nat, live: Cache, kept: Cache)
    requires i < j < |t.reqs| == |t.accepted| && |t.caches| == |t.reqs| + 1
    requires t.accepted[j] && t.reqs[i].now <= t.reqs[j].now && Honest(t, j) && l.max > 0
    requires forall y :: y in live ==> y in t.caches[j] && t.caches[j][y] == live[y]
    requires Evicted(live, kept, l.max) && KeyOf(t.reqs[j]) !in live
    requires var k := KeyOf(t.reqs[i]); k in live && k !in kept && live[k] >= t.reqs[i].now
    ensures |Others(t, j + 1, i)| >= l.max
  {
    var q := KeyOf(t.reqs[j]);
    assert |kept| == l.max - 1;
    assert |kept.Keys + {q}| == |kept.Keys| + 1;
    var k := KeyOf(t.reqs[i]);
    assert forall y :: y in kept ==> y != k && y in t.caches[j] && t.caches[j][y] >= t.reqs[i].now;
    CachedInOthers(t, j, i, kept.Keys);
    InOthers(t, j + 1, i, j);
    Subset(kept.Keys + {q}, Others(t, j + 1, i));
  }

  lemma CachedInOthers(t: Trace, j: nat, i: nat, ys: set<string>)
    requires i < j < |t.reqs| == |t.accepted| && |t.caches| == |t.reqs| + 1 && Honest(t, j)
    requires forall y :: y in ys ==> y != KeyOf(t.reqs[i]) && y in t.caches[j] && t.caches[j][y] >= t.reqs[i].now
    ensures ys <= Others(t, j + 1, i)
  {
  }

  lemma {:induction false} RememberedAlways(l: Limits, t: Trace, j: nat, i: nat)
    requires IsTrace(l, t) && i < j <= |t.reqs| && t.accepted[i]
    ensures Remembered(l, t, j, i)
    decreases j
  {
    var n := j - 1;
    assert Handles(l, t.caches[n], t.reqs[n], t.caches[n + 1], t.accepted[n]);
    if i < n {
      RememberedAlways(l, t, n, i);
      OthersGrow(t, n, i);
      var k := KeyOf(t.reqs[i]);
      var live := Live(t.caches[n], t.reqs[n].now, l.ttl);
      if k in live && live[k] >= t.reqs[i].now && t.accepted[n] {
        var kept :| Evicted(live, kept, l.max) && t.caches[n + 1] == kept[KeyOf(t.reqs[n]) := t.reqs[n].now];
        if k !in kept {
          HonestAlways(l, t, n);
          EvictedByOthers(l, t, n, i, live, kept);
        }
      }
    }
  }

  /** How far the request's timestamp was ahead of the clock at its first acceptance. */
  function Ahead(r: Request): nat {
    if r.ts > Unix(r.now) then r.ts - Unix(r.now) else 0
  }

  /** Nonce safety over whole runs: once (app key, timestamp, nonce) is accepted, it is accepted again only
      if at least `max` other keys were accepted no earlier. The lifetime must exceed the window by the lead of the
      timestamp plus the second that whole-second comparison hides; `2 * window + 1` is always enough. */
  lemma NonceSafety(l: Limits, t: Trace, i: nat, j: nat)
    requires IsTrace(l, t) && i < j < |t.reqs| && t.accepted[i] && t.accepted[j]
    requires KeyOf(t.reqs[i]) == KeyOf(t.reqs[j]) && t.reqs[i].ts == t.reqs[j].ts
    requires l.ttl >= l.window + Ahead(t.reqs[i]) + 1
    ensures |Others(t, j, i)| >= l.max
  {
    RememberedAlways(l, t, j, i);
    var a, b := t.reqs[i], t.reqs[j];
    assert Handles(l, t.caches[i], a, t.caches[i + 1], t.accepted[i]);
    assert Handles(l, t.caches[j], b, t.caches[j + 1], t.accepted[j]);
    assert b.now - a.now < l.ttl * SECOND by {
      assert Unix(b.now) - Unix(a.now) <= l.window + Ahead(a);
      assert b.now < (Unix(b.now) + 1) * SECOND && Unix(a.now) * SECOND <= a.now;
    }
    assert t.reqs[j - 1].now <= b.now;
  }

  lemma AheadWithinWindow(l: Limits, r: Request)
    requires Admissible(l, r)
    ensures Ahead(r) <= l.window
  {
  }

  /** The bound is exact: for every lead up to the window and every shorter lifetime, two requests alone
      are both accepted. */
  lemma ShorterLifetimeFails(l: Limits, lead: nat, appKey: string, nonce: string) returns (t: Trace)
    requires l.max > 0 && lead <= l.window && l.ttl <= l.window + lead && nonce != ""
    ensures IsTrace(l, t) && |t.reqs| == 2 && t.accepted == [true, true]
    ensures t.reqs[0].(now := 0) == t.reqs[1].(now := 0) && Ahead(t.reqs[0]) == lead
    ensures KeyOf(t.reqs[0]) == Key(appKey, nonce) && Others(t, 1, 0) == {}
  {
    var last := l.window + lead;
    var a := Request(appKey, lead, nonce, true, 0);
    var b := a.(now := last * SECOND + 1);
    assert Unix(b.now) == last;
    var k := KeyOf(a);
    t := Trace([a, b], [map[], map[k := 0], map[k := b.now]], [true, true]);
    assert Live(map[], 0, l.ttl) == map[];
    assert map[][k := 0] == map[k := 0];
    assert Evicted(map[], map[], l.max);
    assert Handles(l, t.caches[0], a, t.caches[1], true);
    assert Live(t.caches[1], b.now, l.ttl) == map[];
    assert map[][k := b.now] == map[k := b.now];
    assert Handles(l, t.caches[1], b, t.caches[2], true);
  }
}
