/** The sliding-window request limiter of the HTTP API (api/middleware.py). */
module SlidingWindows {
  import opened Texts

  /** `limit <= 0` and `window <= 0` switch the limiter off before it is asked. */
  datatype Config = Config(limit: nat, window: real, maxKeys: nat) {
    predicate Valid() {
      limit > 0 && window > 0.0 && maxKeys >= 1
    }
  }

  /** Recent admissions of each key, oldest first. */
  datatype Table = Table(buckets: map<string, seq<real>>, lastPruneAt: real)

  datatype Decision = Admitted | WindowFull | Saturated

  // ---- One request -------------------------------------------------------------------

  predicate Expired(bucket: seq<real>, cutoff: real) {
    bucket == [] || bucket[|bucket| - 1] <= cutoff
  }

  /** The entries after the leading ones at or before the cutoff. */
  function Recent(bucket: seq<real>, cutoff: real): seq<real> {
    if bucket != [] && bucket[0] <= cutoff then Recent(bucket[1..], cutoff) else bucket
  }

  ghost function Prune(c: Config, t: Table, now: real): Table {
    if now < t.lastPruneAt + c.window then t
    else Table(map k | k in t.buckets && !Expired(t.buckets[k], now - c.window) :: t.buckets[k], now)
  }

  ghost function BucketOf(t: Table, key: string): seq<real> {
    if key in t.buckets then t.buckets[key] else []
  }

  /** The decision on a table that is already pruned. */
  ghost function Judge(c: Config, t: Table, key: string, now: real): Decision {
    if key !in t.buckets && |t.buckets| >= c.maxKeys then Saturated
    else if |Recent(BucketOf(t, key), now - c.window)| >= c.limit then WindowFull
    else Admitted
  }

  ghost function Judged(c: Config, t: Table, key: string, now: real): Table {
    var recent := Recent(BucketOf(t, key), now - c.window);
    match Judge(c, t, key, now)
    case Saturated => t
    case WindowFull => t.(buckets := t.buckets[key := recent])
    case Admitted => t.(buckets := t.buckets[key := recent + [now]])
  }

  ghost function Decide(c: Config, t: Table, key: string, now: real): Decision {
    Judge(c, Prune(c, t, now), key, now)
  }

  ghost function After(c: Config, t: Table, key: string, now: real): Table {
    Judged(c, Prune(c, t, now), key, now)
  }

  /** No stored bucket is empty, and the table is not over its size. */
  ghost predicate TableOk(c: Config, t: Table) {
    && |t.buckets| <= c.maxKeys
    && forall k :: k in t.buckets ==> t.buckets[k] != []
  }

  /** The least time at which a stored bucket has expired altogether. */
  ghost predicate IsEarliestExpiry(c: Config, buckets: map<string, seq<real>>, expiry: real) {
    && (exists k :: k in buckets && ExpiresAt(c, buckets[k], expiry))
    && (forall k :: k in buckets ==> buckets[k] != [] && expiry <= buckets[k][|buckets[k]| - 1] + c.window)
  }

  ghost predicate ExpiresAt(c: Config, bucket: seq<real>, at: real) {
    bucket != [] && at == bucket[|bucket| - 1] + c.window
  }

  ghost predicate IsHint(c: Config, buckets: map<string, seq<real>>, now: real, wait: real) {
    exists expiry :: IsEarliestExpiry(c, buckets, expiry) && wait == if expiry > now then expiry - now else 0.0
  }

  class RateLimiter {
    const config: Config
    var buckets: map<string, seq<real>>
    var lastPruneAt: real

    ghost function State(): Table
      reads this
    {
      Table(buckets, lastPruneAt)
    }

    ghost predicate Valid()
      reads this
    {
      config.Valid() && TableOk(config, State())
    }

    constructor (config: Config)
      requires config.Valid()
      ensures Valid() && this.config == config && State() == Table(map[], 0.0)
    {
      this.config, buckets, lastPruneAt := config, map[], 0.0;
    }

    /** Admit the request, or say how long to wait. */
    method RecordOrReject(key: string, now: real) returns (retryAfter: Option<real>)
      requires Valid()
      modifies this
      ensures Valid() && State() == After(config, old(State()), key, now)
      ensures retryAfter == None <==> Decide(config, old(State()), key, now) == Admitted
      ensures Decide(config, old(State()), key, now) == WindowFull ==>
              retryAfter == Some(RetryAfter(config, buckets[key], now))
      ensures Decide(config, old(State()), key, now) == Saturated ==>
              retryAfter.Some? && IsHint(config, buckets, now, retryAfter.value)
    {
      PruneKeepsOk(config, State(), now);
      PruneExpiredKeys(now - config.window, now);
      retryAfter := RecordPruned(key, now - config.window, now);
    }

    method RecordPruned(key: string, cutoff: real, now: real) returns (retryAfter: Option<real>)
      requires Valid() && cutoff == now - config.window
      modifies this`buckets
      ensures Valid() && State() == Judged(config, old(State()), key, now)
      ensures retryAfter == None <==> Judge(config, old(State()), key, now) == Admitted
      ensures Judge(config, old(State()), key, now) == WindowFull ==>
              retryAfter == Some(RetryAfter(config, buckets[key], now))
      ensures Judge(config, old(State()), key, now) == Saturated ==>
              retryAfter.Some? && IsHint(config, buckets, now, retryAfter.value)
    {
      TableStaysOk(config, State(), key, now);
      var requests := [];
      if key in buckets {
        requests := buckets[key];
      } else {
        if |buckets| >= config.maxKeys {
          var wait := UntilRoom(config, buckets, now);
          return Some(wait);
        }
        buckets := buckets[key := []];
      }
      requests := DropExpired(requests, cutoff);
      buckets := buckets[key := requests];
      Overwrite(old(buckets), key, [], requests);
      Overwrite(old(buckets), key, requests, requests + [now]);
      assert buckets == old(buckets)[key := requests];
      if |requests| >= config.limit {
        var wait := requests[0] + config.window - now;
        retryAfter := Some(if wait > 0.0 then wait else 0.0);
      } else {
        buckets := buckets[key := requests + [now]];
        retryAfter := None;
      }
    }

    method PruneExpiredKeys(cutoff: real, now: real)
      requires cutoff == now - config.window
      modifies this
      ensures State() == Prune(config, old(State()), now)
    {
      if now < lastPruneAt + config.window {
        return;
      }
      lastPruneAt := now;
      var rest := buckets.Keys;
      while rest != {}
        invariant rest <= buckets.Keys <= old(buckets).Keys && lastPruneAt == now
        invariant forall k :: k in old(buckets) ==>
                    (k in buckets <==> k in rest || !Expired(old(buckets)[k], cutoff))
        invariant forall k :: k in buckets ==> buckets[k] == old(buckets)[k]
        decreases |rest|
      {
        var key :| key in rest;
        rest := rest - {key};
        if Expired(buckets[key], cutoff) {
          buckets := buckets - {key};
        }
      }
      assert buckets == Prune(config, old(State()), now).buckets;
    }
  }

  method DropExpired(bucket: seq<real>, cutoff: real) returns (r: seq<real>)
    ensures r == Recent(bucket, cutoff)
    ensures r != [] ==> r[0] > cutoff
  {
    r := bucket;
    while r != [] && r[0] <= cutoff
      invariant Recent(r, cutoff) == Recent(bucket, cutoff)
    {
      r := r[1..];
    }
  }

  /** Until the oldest of the recent admissions leaves the window. */
  function RetryAfter(c: Config, bucket: seq<real>, now: real): real {
    if bucket != [] && bucket[0] + c.window > now then bucket[0] + c.window - now else 0.0
  }

  /** How long until some bucket has expired, as a hint for a caller there is no room for. */
  method UntilRoom(c: Config, buckets: map<string, seq<real>>, now: real) returns (wait: real)
    requires |buckets| > 0 && forall k :: k in buckets ==> buckets[k] != []
    ensures IsHint(c, buckets, now, wait)
  {
    var expiry := EarliestExpiry(c, buckets);
    wait := if expiry > now then expiry - now else 0.0;
  }

  method EarliestExpiry(c: Config, buckets: map<string, seq<real>>) returns (expiry: real)
    requires |buckets| > 0 && forall k :: k in buckets ==> buckets[k] != []
    ensures IsEarliestExpiry(c, buckets, expiry)
  {
    var first :| first in buckets;
    expiry := buckets[first][|buckets[first]| - 1] + c.window;
    var rest := buckets.Keys - {first};
    while rest != {}
      invariant rest <= buckets.Keys
      invariant exists k :: k in buckets && ExpiresAt(c, buckets[k], expiry)
      invariant forall k :: k in buckets && k !in rest ==> expiry <= buckets[k][|buckets[k]| - 1] + c.window
      decreases |rest|
    {
      var key :| key in rest;
      rest := rest - {key};
      var other := buckets[key][|buckets[key]| - 1] + c.window;
      if other < expiry {
        expiry := other;
        assert ExpiresAt(c, buckets[key], expiry);
      }
    }
  }

  lemma Overwrite(m: map<string, seq<real>>, key: string, a: seq<real>, b: seq<real>)
    ensures m[key := a][key := b] == m[key := b]
  {
  }

  lemma NewKey(m: map<string, seq<real>>, key: string, value: seq<real>)
    ensures |m[key := value]| == |m| + if key in m then 0 else 1
  {
    assert m[key := value].Keys == m.Keys + {key};
    assert |m.Keys| == |m| && |m[key := value].Keys| == |m[key := value]|;
  }

  lemma PruneKeepsOk(c: Config, t: Table, now: real)
    requires TableOk(c, t)
    ensures TableOk(c, Prune(c, t, now))
  {
    var pruned := Prune(c, t, now);
    Subset(pruned.buckets.Keys, t.buckets.Keys);
    assert |pruned.buckets.Keys| == |pruned.buckets| && |t.buckets.Keys| == |t.buckets|;
  }

  lemma TableStaysOk(c: Config, t: Table, key: string, now: real)
    requires c.Valid() && TableOk(c, t)
    ensures TableOk(c, Judged(c, t, key, now))
  {
    var recent := Recent(BucketOf(t, key), now - c.window);
    NewKey(t.buckets, key, recent);
    NewKey(t.buckets, key, recent + [now]);
  }

  lemma {:induction false} Subset(a: set<string>, b: set<string>)
    requires a <= b
    ensures |a| <= |b|
    decreases |b|
  {
    if b != {} {
      var k :| k in b;
      Subset(a - {k}, b - {k});
    }
  }

  // ---- Whole runs --------------------------------------------------------------------

  /** The table, the time of the last request, and every admission there ever was. */
  datatype System = System(table: Table, now: real, history: map<string, seq<real>>)

  datatype Request = Request(key: string, at: real)

  ghost function AdmissionsOf(s: System, key: string): seq<real> {
    if key in s.history then s.history[key] else []
  }

  ghost function Next(c: Config, s: System, r: Request): System {
    System(After(c, s.table, r.key, r.at), r.at,
           if Decide(c, s.table, r.key, r.at) == Admitted
           then s.history[r.key := AdmissionsOf(s, r.key) + [r.at]] else s.history)
  }

  /** The clock never goes back. */
  ghost predicate ValidRun(now: real, requests: seq<Request>)
    decreases |requests|
  {
    requests == [] || (now <= requests[0].at && ValidRun(requests[0].at, requests[1..]))
  }

  ghost function RunAll(c: Config, s: System, requests: seq<Request>): System
    decreases |requests|
  {
    if requests == [] then s else RunAll(c, Next(c, s, requests[0]), requests[1..])
  }

  /** Admissions in the window that ends at `t`. */
  ghost function Within(c: Config, times: seq<real>, t: real): nat {
    if times == [] then 0
    else Within(c, times[..|times| - 1], t) + if t - c.window < times[|times| - 1] <= t then 1 else 0
  }

  ghost predicate Sorted(times: seq<real>) {
    forall i, j :: 0 <= i < j < |times| ==> times[i] <= times[j]
  }

  /** `limit` admissions on, a whole window has passed. */
  ghost predicate Spaced(c: Config, times: seq<real>) {
    forall j :: c.limit <= j < |times| ==> times[j - c.limit] + c.window <= times[j]
  }

  /** The first `n` times are at or before the cutoff. */
  ghost predicate Old(times: seq<real>, n: int, cutoff: real) {
    n <= |times| && forall i :: 0 <= i < n ==> times[i] <= cutoff
  }

  /** A bucket is the end of its key's history, and lacks nothing that is still in the window. */
  ghost predicate Remembers(times: seq<real>, bucket: seq<real>, cutoff: real) {
    && |bucket| <= |times|
    && times[|times| - |bucket|..] == bucket
    && Old(times, |times| - |bucket|, cutoff)
  }

  ghost predicate KeyOk(c: Config, times: seq<real>, bucket: seq<real>, now: real) {
    && Sorted(times)
    && Old(times, |times|, now)
    && Spaced(c, times)
    && Remembers(times, bucket, now - c.window)
  }

  /** Pruning, at most once per window, forgets exactly the keys with no admission in the window. */
  lemma PruneForgetsExactly(c: Config, t: Table, key: string, now: real)
    requires key in t.buckets && Sorted(t.buckets[key])
    ensures var after, bucket := Prune(c, t, now), t.buckets[key];
            && (key in after.buckets <==>
                  now - t.lastPruneAt < c.window || exists i :: 0 <= i < |bucket| && bucket[i] > now - c.window)
            && (key in after.buckets ==> after.buckets[key] == bucket)
            && after.lastPruneAt == if now - t.lastPruneAt < c.window then t.lastPruneAt else now
  {
  }

  ghost predicate Inv(c: Config, s: System) {
    && TableOk(c, s.table)
    && forall k :: KeyOk(c, AdmissionsOf(s, k), BucketOf(s.table, k), s.now)
  }

  lemma {:induction false} RecentRemembers(times: seq<real>, bucket: seq<real>, before: real, cutoff: real)
    requires Sorted(times) && Remembers(times, bucket, before) && before <= cutoff
    ensures Remembers(times, Recent(bucket, cutoff), cutoff)
    ensures var recent := Recent(bucket, cutoff);
            forall i :: |times| - |recent| <= i < |times| ==> times[i] > cutoff
    decreases |bucket|
  {
    if bucket != [] {
      var n := |times| - |bucket|;
      assert bucket[0] == times[n];
      if bucket[0] <= cutoff {
        assert times[n + 1..] == bucket[1..];
        RecentRemembers(times, bucket[1..], cutoff, cutoff);
      }
    }
  }

  lemma PruneRemembers(c: Config, t: Table, times: seq<real>, key: string, before: real, now: real)
    requires Sorted(times) && Remembers(times, BucketOf(t, key), before - c.window) && before <= now
    ensures Remembers(times, BucketOf(Prune(c, t, now), key), now - c.window)
  {
    var bucket := BucketOf(t, key);
    if bucket != [] && BucketOf(Prune(c, t, now), key) == [] {
      assert times[|times| - 1] == bucket[|bucket| - 1];
    }
  }

  /** What remains of the bucket is exactly what is in the window. */
  lemma {:induction false} WithinIsRecent(c: Config, times: seq<real>, n: nat, t: real)
    requires n <= |times| && Old(times, |times|, t) && Old(times, n, t - c.window)
    requires forall i :: n <= i < |times| ==> times[i] > t - c.window
    ensures Within(c, times, t) == |times| - n
    decreases |times|
  {
    if times != [] {
      var m := |times| - 1;
      WithinIsRecent(c, times[..m], if n <= m then n else m, t);
    }
  }

  lemma RecentIsWindow(c: Config, times: seq<real>, bucket: seq<real>, now: real)
    requires Sorted(times) && Old(times, |times|, now) && Remembers(times, bucket, now - c.window)
    ensures var recent := Recent(bucket, now - c.window);
            && Remembers(times, recent, now - c.window)
            && |recent| == Within(c, times, now)
            && (recent != [] ==> recent[0] == times[|times| - |recent|] > now - c.window)
  {
    RecentRemembers(times, bucket, now - c.window, now - c.window);
    var recent := Recent(bucket, now - c.window);
    WithinIsRecent(c, times, |times| - |recent|, now);
  }

  lemma KeyLater(c: Config, times: seq<real>, before: seq<real>, past: real, bucket: seq<real>, now: real)
    requires KeyOk(c, times, before, past) && past <= now && Remembers(times, bucket, now - c.window)
    ensures KeyOk(c, times, bucket, now)
  {
  }

  lemma PrunedKeyOk(c: Config, s: System, key: string, now: real)
    requires Inv(c, s) && s.now <= now
    ensures KeyOk(c, AdmissionsOf(s, key), BucketOf(Prune(c, s.table, now), key), now)
  {
    var times, before := AdmissionsOf(s, key), BucketOf(s.table, key);
    assert KeyOk(c, times, before, s.now);
    PruneRemembers(c, s.table, times, key, s.now, now);
    KeyLater(c, times, before, s.now, BucketOf(Prune(c, s.table, now), key), now);
  }

  /** What the limiter finds in the key's bucket once expired entries are dropped. */
  ghost function Found(c: Config, s: System, r: Request): seq<real> {
    Recent(BucketOf(Prune(c, s.table, r.at), r.key), r.at - c.window)
  }

  /** It is exactly the key's admissions in the window. */
  lemma FoundIsWindow(c: Config, s: System, r: Request)
    requires Inv(c, s) && s.now <= r.at
    ensures var times, found := AdmissionsOf(s, r.key), Found(c, s, r);
            && KeyOk(c, times, found, r.at)
            && |found| == Within(c, times, r.at)
            && (found != [] ==> found[0] == times[|times| - |found|] > r.at - c.window)
  {
    var times, bucket := AdmissionsOf(s, r.key), BucketOf(Prune(c, s.table, r.at), r.key);
    PrunedKeyOk(c, s, r.key, r.at);
    RecentOfKey(c, times, bucket, r.at);
  }

  lemma RecentOfKey(c: Config, times: seq<real>, bucket: seq<real>, now: real)
    requires KeyOk(c, times, bucket, now)
    ensures var recent := Recent(bucket, now - c.window);
            && KeyOk(c, times, recent, now)
            && |recent| == Within(c, times, now)
            && (recent != [] ==> recent[0] == times[|times| - |recent|] > now - c.window)
  {
    RecentIsWindow(c, times, bucket, now);
    KeyLater(c, times, bucket, now, Recent(bucket, now - c.window), now);
  }

  /** The decision is that of a limiter that remembers everything, unless the table is full and
      does not hold the key. A key the table held before the request is always judged by its window. */
  lemma DecisionIsByWindow(c: Config, s: System, r: Request)
    requires c.Valid() && Inv(c, s) && s.now <= r.at
    ensures var d := Decide(c, s.table, r.key, r.at);
            var full := Within(c, AdmissionsOf(s, r.key), r.at) >= c.limit;
            && (d != Saturated ==> (d == WindowFull <==> full))
            && (r.key in s.table.buckets ==> d != Saturated)
            && (d == Saturated ==> |s.table.buckets| == c.maxKeys && !full)
  {
    FoundIsWindow(c, s, r);
    var pruned := Prune(c, s.table, r.at);
    PruneKeepsOk(c, s.table, r.at);
    if r.key in s.table.buckets && r.key !in pruned.buckets {
      FewerKeys(pruned.buckets.Keys, s.table.buckets.Keys, r.key);
      assert |pruned.buckets.Keys| == |pruned.buckets| && |s.table.buckets.Keys| == |s.table.buckets|;
    }
    if Decide(c, s.table, r.key, r.at) == Saturated {
      Subset(pruned.buckets.Keys, s.table.buckets.Keys);
      assert |pruned.buckets.Keys| == |pruned.buckets| && |s.table.buckets.Keys| == |s.table.buckets|;
    }
  }

  /** For a key in the table, pruning first or not pruning at all decides the same. */
  lemma PruningChangesNoDecision(c: Config, s: System, r: Request)
    requires c.Valid() && Inv(c, s) && s.now <= r.at && r.key in s.table.buckets
    ensures Decide(c, s.table, r.key, r.at) == Judge(c, s.table, r.key, r.at)
  {
    DecisionIsByWindow(c, s, r);
    var times, bucket := AdmissionsOf(s, r.key), BucketOf(s.table, r.key);
    assert KeyOk(c, times, bucket, s.now);
    RecentIsWindow(c, times, bucket, r.at);
  }

  lemma FewerKeys(a: set<string>, b: set<string>, k: string)
    requires a <= b && k in b && k !in a
    ensures |a| < |b|
  {
    Subset(a, b - {k});
  }

  lemma OneMore(c: Config, times: seq<real>, recent: seq<real>, now: real)
    requires KeyOk(c, times, recent, now) && |recent| < c.limit
    ensures KeyOk(c, times + [now], recent + [now], now)
  {
    var more := times + [now];
    assert more[|more| - (|recent| + 1)..] == recent + [now];
    forall j | c.limit <= j < |more| ensures more[j - c.limit] + c.window <= more[j] {
      if j == |times| {
        assert j - c.limit < |times| - |recent|;
      }
    }
  }

  lemma OtherKeyOk(c: Config, s: System, r: Request, k: string)
    requires Inv(c, s) && s.now <= r.at && k != r.key
    ensures KeyOk(c, AdmissionsOf(s, k), BucketOf(After(c, s.table, r.key, r.at), k), r.at)
  {
    PrunedKeyOk(c, s, k, r.at);
    assert BucketOf(After(c, s.table, r.key, r.at), k) == BucketOf(Prune(c, s.table, r.at), k);
  }

  lemma OwnBucket(c: Config, s: System, r: Request)
    ensures BucketOf(After(c, s.table, r.key, r.at), r.key) ==
            match Decide(c, s.table, r.key, r.at)
            case Saturated => []
            case WindowFull => Found(c, s, r)
            case Admitted => Found(c, s, r) + [r.at]
    ensures Decide(c, s.table, r.key, r.at) == Admitted ==> |Found(c, s, r)| < c.limit
    ensures Decide(c, s.table, r.key, r.at) == WindowFull ==> |Found(c, s, r)| >= c.limit
    ensures Decide(c, s.table, r.key, r.at) == Saturated ==> Found(c, s, r) == []
  {
  }

  lemma OwnHistory(c: Config, s: System, r: Request)
    ensures AdmissionsOf(Next(c, s, r), r.key) ==
            if Decide(c, s.table, r.key, r.at) == Admitted then AdmissionsOf(s, r.key) + [r.at]
            else AdmissionsOf(s, r.key)
  {
  }

  lemma SameKeyOk(c: Config, s: System, r: Request)
    requires c.Valid() && Inv(c, s) && s.now <= r.at
    ensures KeyOk(c, AdmissionsOf(Next(c, s, r), r.key), BucketOf(After(c, s.table, r.key, r.at), r.key), r.at)
  {
    FoundIsWindow(c, s, r);
    OwnBucket(c, s, r);
    OwnHistory(c, s, r);
    if Decide(c, s.table, r.key, r.at) == Admitted {
      OneMore(c, AdmissionsOf(s, r.key), Found(c, s, r), r.at);
    }
  }

  lemma NextKeepsInv(c: Config, s: System, r: Request)
    requires c.Valid() && Inv(c, s) && s.now <= r.at
    ensures Inv(c, Next(c, s, r))
  {
    var next := Next(c, s, r);
    PruneKeepsOk(c, s.table, r.at);
    TableStaysOk(c, Prune(c, s.table, r.at), r.key, r.at);
    forall k ensures KeyOk(c, AdmissionsOf(next, k), BucketOf(next.table, k), next.now) {
      if k == r.key {
        SameKeyOk(c, s, r);
      } else {
        OtherKeyOk(c, s, r, k);
      }
    }
  }

  lemma {:induction false} RunKeepsInv(c: Config, s: System, requests: seq<Request>)
    requires c.Valid() && Inv(c, s) && ValidRun(s.now, requests)
    ensures Inv(c, RunAll(c, s, requests))
    decreases |requests|
  {
    if requests != [] {
      NextKeepsInv(c, s, requests[0]);
      RunKeepsInv(c, Next(c, s, requests[0]), requests[1..]);
    }
  }

  ghost function Initial(now: real): System {
    System(Table(map[], 0.0), now, map[])
  }

  lemma {:induction false} WithinAtMost(c: Config, times: seq<real>, n: nat, t: real)
    requires n <= |times| && Old(times, n, t - c.window)
    ensures Within(c, times, t) <= |times| - n
    decreases |times|
  {
    if times != [] {
      var m := |times| - 1;
      WithinAtMost(c, times[..m], if n <= m then n else m, t);
    }
  }

  lemma {:induction false} SpacedIsBounded(c: Config, times: seq<real>, t: real)
    requires c.Valid() && Sorted(times) && Spaced(c, times)
    ensures Within(c, times, t) <= c.limit
    decreases |times|
  {
    if times != [] {
      var m := |times| - 1;
      SpacedIsBounded(c, times[..m], t);
      if times[m] <= t {
        var n := if m >= c.limit then m - c.limit + 1 else 0;
        forall i | 0 <= i < n ensures times[i] <= t - c.window {
          assert times[i] <= times[m - c.limit];
        }
        WithinAtMost(c, times, n, t);
      }
    }
  }

  /** Over every run with a monotone clock: no key is admitted more than `limit` times in any
      window, wherever it ends; the table keeps its size and never holds an empty bucket. */
  lemma AdmissionsStayWithinTheLimit(c: Config, start: real, requests: seq<Request>, key: string, t: real)
    requires c.Valid() && ValidRun(start, requests)
    ensures var s := RunAll(c, Initial(start), requests);
            && Within(c, AdmissionsOf(s, key), t) <= c.limit
            && TableOk(c, s.table)
  {
    RunKeepsInv(c, Initial(start), requests);
    var s := RunAll(c, Initial(start), requests);
    assert KeyOk(c, AdmissionsOf(s, key), BucketOf(s.table, key), s.now);
    SpacedIsBounded(c, AdmissionsOf(s, key), t);
  }

  /** After any such run, the next request is refused for its window exactly when that is full,
      and is refused for want of room only when its key is unknown and the table is full. */
  lemma RefusedOnlyWhenFull(c: Config, start: real, requests: seq<Request>, r: Request)
    requires c.Valid() && ValidRun(start, requests)
    requires RunAll(c, Initial(start), requests).now <= r.at
    ensures var s := RunAll(c, Initial(start), requests);
            var d := Decide(c, s.table, r.key, r.at);
            var full := Within(c, AdmissionsOf(s, r.key), r.at) == c.limit;
            && (d == WindowFull <==> d != Saturated && full)
            && (d == Saturated ==> r.key !in s.table.buckets && |s.table.buckets| == c.maxKeys)
  {
    RunKeepsInv(c, Initial(start), requests);
    DecisionIsByWindow(c, RunAll(c, Initial(start), requests), r);
    AdmissionsStayWithinTheLimit(c, start, requests, r.key, r.at);
  }

  /** With the limit reached, the window has room again once its oldest admission has left it. */
  lemma RoomAgain(c: Config, times: seq<real>, t: real)
    requires c.Valid() && c.limit <= |times| && Sorted(times) && Old(times, |times|, t)
    ensures Within(c, times, t) < c.limit <==> t >= times[|times| - c.limit] + c.window
  {
    var n := |times| - c.limit;
    if t >= times[n] + c.window {
      WithinAtMost(c, times, n + 1, t);
    } else {
      WithinAtLeast(c, times, n, t);
    }
  }

  /** A refusal for a full window names exactly the time from which the key, if not admitted in
      between, is within its limit again. */
  lemma RetryAfterIsExact(c: Config, s: System, r: Request, t: real)
    requires c.Valid() && Inv(c, s) && s.now <= r.at <= t
    requires Decide(c, s.table, r.key, r.at) == WindowFull
    ensures var times, bucket := AdmissionsOf(s, r.key), BucketOf(After(c, s.table, r.key, r.at), r.key);
            RetryAfter(c, bucket, r.at) > 0.0
            && (Within(c, times, t) < c.limit <==> t >= r.at + RetryAfter(c, bucket, r.at))
  {
    var times, found := AdmissionsOf(s, r.key), Found(c, s, r);
    FoundIsWindow(c, s, r);
    OwnBucket(c, s, r);
    SpacedIsBounded(c, times, r.at);
    assert |found| == c.limit && found[0] == times[|times| - c.limit];
    RoomAgain(c, times, t);
  }

  lemma {:induction false} WithinAtLeast(c: Config, times: seq<real>, n: nat, t: real)
    requires n <= |times| && forall i :: n <= i < |times| ==> t - c.window < times[i] <= t
    ensures Within(c, times, t) >= |times| - n
    decreases |times|
  {
    if n < |times| {
      WithinAtLeast(c, times[..|times| - 1], n, t);
    }
  }
}
