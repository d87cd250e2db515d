/** The local per-domain rate limiter (engine/rate_limiter.py): reference-counted domain locks,
    pruning and capacity eviction. */
module DomainRateLimiter {
  import opened Ordering
  import opened Texts

  function UsersOf(users: map<string, int>, d: string): int {
    if d in users then users[d] else 0
  }

  /** The limiter's dictionaries. Locks are numbered as they are created; `locked` holds those
      that are taken. */
  datatype Table = Table(
    retention: real, maxDomains: nat,
    locks: map<string, nat>, users: map<string, int>, last: map<string, real>, lastPruneAt: real,
    locked: set<nat>, nextLock: nat)
  {
    function Users(d: string): int {
      UsersOf(users, d)
    }

    predicate Idle(d: string) {
      d in locks && locks[d] !in locked && Users(d) == 0
    }

    function Expired(now: real): set<string> {
      set d | d in last && last[d] <= now - retention && (d in locks ==> locks[d] !in locked) && Users(d) == 0
    }

    function Remove(gone: set<string>): Table {
      this.(locks := locks - gone, users := users - gone, last := last - gone)
    }

    function Pruned(now: real): Table {
      if now < lastPruneAt + retention then this else Remove(Expired(now)).(lastPruneAt := now)
    }

    /** Idle domains that made a request, and when; and those that never did. */
    function IdleTimes(): map<string, real> {
      map d | d in locks && Idle(d) && d in last :: last[d]
    }

    function NeverUsed(): map<string, real> {
      map d | d in locks && Idle(d) && d !in last :: 0.0
    }

    /** The least recently used idle domain; one without a request counts as used last. */
    ghost function Victim(): Option<string> {
      if |IdleTimes()| > 0 then Some(First(IdleTimes()))
      else if |NeverUsed()| > 0 then Some(First(NeverUsed()))
      else None
    }

    function Join(d: string): Table {
      this.(users := users[d := Users(d) + 1])
    }

    function Create(d: string): Table {
      this.(locks := locks[d := nextLock], users := users[d := 1], locked := locked + {nextLock},
            nextLock := nextLock + 1)
    }

    function Leave(d: string): Table {
      this.(users := users[d := Users(d) - 1])
    }

    function Unlock(lock: nat): Table {
      this.(locked := locked - {lock})
    }
  }

  /** How one pass under the condition ends: no room, or counted with the domain's lock to wait
      for (`inside` the condition when it is free but others are queued), or with it taken. */
  datatype Entry = Saturated | Queued(queuedLock: nat, inside: bool) | Acquired(lock: nat)

  /** One pass of `_acquire_domain_lock`; also the domain evicted to make room, if any. */
  ghost function Enter(t0: Table, d: string, now: real, othersQueued: bool): (r: (Table, Entry, Option<string>))
    ensures r.0.retention == t0.retention && r.0.maxDomains == t0.maxDomains
  {
    var t := t0.Pruned(now);
    if d in t.locks then
      if t.locks[d] in t.locked || othersQueued then
        (t.Join(d), Queued(t.locks[d], t.locks[d] !in t.locked), None)
      else (t.Join(d).(locked := t.locked + {t.locks[d]}), Acquired(t.locks[d]), None)
    else if |t.locks| < t.maxDomains then (t.Create(d), Acquired(t.nextLock), None)
    else
      match t.Victim()
      case None => (t, Saturated, None)
      case Some(v) => (t.Remove({v}).Create(d), Acquired(t.nextLock), Some(v))
  }

  class LocalDomainRateLimiter {
    const retention: real
    const maxDomains: nat
    var locks: map<string, nat>
    var users: map<string, int>
    var last: map<string, real>
    var lastPruneAt: real
    var locked: set<nat>
    var nextLock: nat

    ghost function State(): Table
      reads this
    {
      Table(retention, maxDomains, locks, users, last, lastPruneAt, locked, nextLock)
    }

    constructor (retention: real, maxDomains: nat)
      requires retention > 0.0 && maxDomains > 0
      ensures State() == Table(retention, maxDomains, map[], map[], map[], 0.0, {}, 0)
    {
      this.retention, this.maxDomains := retention, maxDomains;
      locks, users, last, lastPruneAt, locked, nextLock := map[], map[], map[], 0.0, {}, 0;
    }

    method PruneStaleDomains(now: real)
      modifies this`last, this`locks, this`users, this`lastPruneAt
      ensures State() == old(State()).Pruned(now)
    {
      if now < lastPruneAt + retention {
        return;
      }
      var expired := FindExpired(now);
      lastPruneAt := now;
      last, locks, users := last - expired, locks - expired, users - expired;
    }

    /** Domains whose last request is past the retention and that nobody uses. */
    method FindExpired(now: real) returns (expired: set<string>)
      ensures expired == State().Expired(now)
    {
      var cutoff := now - retention;
      var left := last.Keys;
      expired := {};
      while left != {}
        invariant left <= last.Keys && expired == State().Expired(now) - left
        decreases |left|
      {
        var d :| d in left;
        left := left - {d};
        if last[d] <= cutoff && (d !in locks || locks[d] !in locked) && (d !in users || users[d] == 0) {
          expired := expired + {d};
        }
      }
    }

    /** One pass of the retry loop. `othersQueued` is the lock's own queue of waiters. */
    method EnterDomain(domain: string, now: real, othersQueued: bool)
      returns (entry: Entry, evicted: Option<string>)
      modifies this
      ensures (State(), entry, evicted) == Enter(old(State()), domain, now, othersQueued)
    {
      PruneStaleDomains(now);
      ghost var pruned := State();
      evicted := None;
      if domain in locks {
        var lock := locks[domain];
        users := users[domain := (if domain in users then users[domain] else 0) + 1];
        if lock in locked || othersQueued {
          return Queued(lock, lock !in locked), None;
        }
        locked := locked + {lock};
        return Acquired(lock), None;
      }
      if |locks| >= maxDomains {
        evicted := EvictIdle();
        if evicted.None? {
          return Saturated, None;
        }
      }
      var lock := CreateLock(domain);
      entry := Acquired(lock);
    }

    /** Evict the least recently used idle domain, if there is one. */
    method EvictIdle() returns (evicted: Option<string>)
      modifies this`last, this`locks, this`users
      ensures evicted == old(State()).Victim()
      ensures State() == if evicted.Some? then old(State()).Remove({evicted.value}) else old(State())
    {
      var table := Table(retention, maxDomains, locks, users, last, lastPruneAt, locked, nextLock);
      var idle, never := table.IdleTimes(), table.NeverUsed();
      if |idle| == 0 && |never| == 0 {
        return None;
      }
      var candidates := if |idle| > 0 then idle else never;
      var victim := FindFirst(candidates);
      FirstIsUnique(candidates, victim, First(candidates));
      last, locks, users := last - {victim}, locks - {victim}, users - {victim};
      evicted := Some(victim);
    }

    method CreateLock(domain: string) returns (lock: nat)
      modifies this`locks, this`users, this`locked, this`nextLock
      ensures lock == old(nextLock) && State() == old(State()).Create(domain)
    {
      lock := nextLock;
      locks, users := locks[domain := lock], users[domain := 1];
      locked, nextLock := locked + {lock}, nextLock + 1;
    }

    /** The request is made: remember when, and let the next holder in. */
    method RecordAndRelease(domain: string, now: real, lock: nat)
      modifies this`last, this`locked
      ensures State() == old(State()).(last := old(last)[domain := now]).Unlock(lock)
    {
      last := last[domain := now];
      locked := locked - {lock};
    }

    /** The last act of a caller, under the condition. */
    method LeaveDomain(domain: string)
      requires domain in users
      modifies this`users
      ensures State() == old(State()).Leave(domain)
    {
      users := users[domain := users[domain] - 1];
    }
  }

  // ---- What a pass comes to ----------------------------------------------------------

  /** Pruning, at most once per retention, forgets exactly the unused domains whose last request
      is a whole retention ago. */
  lemma PruneForgetsExactly(t: Table, now: real, d: string)
    requires d in t.locks
    ensures d !in t.Pruned(now).locks <==>
            && now - t.lastPruneAt >= t.retention
            && d in t.last && now - t.last[d] >= t.retention
            && t.locks[d] !in t.locked && t.Users(d) == 0
    ensures d in t.Pruned(now).locks ==>
            && t.Pruned(now).locks[d] == t.locks[d] && t.Pruned(now).Users(d) == t.Users(d)
            && (d in t.Pruned(now).last <==> d in t.last) && (d in t.last ==> t.Pruned(now).last[d] == t.last[d])
    ensures t.Pruned(now).lastPruneAt == if now - t.lastPruneAt >= t.retention then now else t.lastPruneAt
  {
  }

  /** The evicted domain is idle, and no idle domain made its last request earlier; one that never
      made any counts as the latest. There is one whenever some domain is idle. */
  lemma VictimIsLeastRecent(t: Table, x: string)
    requires t.Idle(x)
    ensures t.Victim().Some?
    ensures var v := t.Victim().value;
            && t.Idle(v)
            && (x in t.last ==> v in t.last && t.last[v] <= t.last[x])
            && (x in t.last && t.last[v] == t.last[x] && v != x ==> Before(v, x))
  {
    if x in t.last {
      assert x in t.IdleTimes();
      assert IsFirst(t.IdleTimes(), First(t.IdleTimes()));
    } else {
      assert x in t.NeverUsed();
    }
  }

  /** A pass waits for room if and only if its domain is unknown, the table is full and every
      domain in it is in use; it waits for the lock if and only if that is taken or promised; and
      otherwise it leaves with the lock taken and one more caller counted. */
  lemma PassOutcome(t: Table, d: string, now: real, othersQueued: bool)
    ensures var p := t.Pruned(now);
            var (u, entry, evicted) := Enter(t, d, now, othersQueued);
            && (entry.Saturated? <==> d !in p.locks && |p.locks| >= p.maxDomains && forall x :: !p.Idle(x))
            && (entry.Queued? <==> d in p.locks && (p.locks[d] in p.locked || othersQueued))
            && (entry.Queued? ==> entry.queuedLock == p.locks[d] && (entry.inside <==> p.locks[d] !in p.locked))
            && (evicted.Some? <==> d !in p.locks && |p.locks| >= p.maxDomains && exists x :: p.Idle(x))
            && (entry.Saturated? ==> u == p)
            && (!entry.Saturated? ==> u.Users(d) == (if d in p.locks then p.Users(d) else 0) + 1)
            && (entry.Acquired? ==> u.locked == p.locked + {entry.lock} && d in u.locks && u.locks[d] == entry.lock)
  {
    var p := t.Pruned(now);
    if x :| p.Idle(x) {
      VictimIsLeastRecent(p, x);
    } else {
      assert p.IdleTimes() == map[] && p.NeverUsed() == map[];
    }
    if p.Victim().Some? {
      VictimExists(p);
    }
  }

  lemma VictimExists(t: Table)
    requires t.Victim().Some?
    ensures t.Idle(t.Victim().value)
  {
  }
}
