/** Every interleaving of callers of the local rate limiter, and the invariant each step keeps.

    A step is what one coroutine does between two awaits. The condition's lock can be held across
    an await in one place only: by a newcomer that waits inside it for a domain lock that is free
    but promised to others. While it is held, or others queue for it, whoever needs it queues.
    The model lets a caller that is due at once be interrupted before its request, and lets queues
    move in any order; so it has every run of the code, and more.
 */
module RateLimiterCallers {
  import opened Texts
  import opened DomainRateLimiter

  /** Where a caller is: in the condition's queue to come in (`Arriving`), notified when there is
      room (`Parked`), waiting for its domain's lock, holding it until it may make its request, or
      in the condition's queue to give its place in the count back (`Releasing`). */
  datatype Phase =
    | Arriving
    | Parked
    | Waiting(lock: nat, inside: bool)
    | Holding(heldLock: nat, until: real)
    | Releasing
    | Gone

  datatype Caller = Caller(domain: string, interval: real, phase: Phase)

  datatype LogEntry = Granted(domain: string, at: real, interval: real) | Evicted(domain: string)

  /** `leaked` counts callers cancelled so that their place in a count is never given back. */
  datatype System = System(table: Table, callers: seq<Caller>, now: real, leaked: map<string, nat>,
                           log: seq<LogEntry>)

  datatype Step =
    | Tick(later: real)
    | Call(domain: string, interval: real)
    | Retry(i: nat)
    | Admit(i: nat)
    | Acquire(i: nat)
    | Grant(i: nat)
    | Finish(i: nat)
    | Cancel(i: nat)

  ghost predicate Enabled(s: System, step: Step) {
    match step
    case Tick(later) => later >= s.now
    case Call(_, interval) => interval > 0.0
    case Retry(i) => i < |s.callers| && s.callers[i].phase.Parked?
    case Admit(i) => i < |s.callers| && s.callers[i].phase.Arriving? && !ConditionHeld(s.callers)
    case Acquire(i) => i < |s.callers| && s.callers[i].phase.Waiting? && s.callers[i].phase.lock !in s.table.locked
    case Grant(i) => i < |s.callers| && s.callers[i].phase.Holding? && s.now >= s.callers[i].phase.until
    case Finish(i) => i < |s.callers| && s.callers[i].phase.Releasing? && !ConditionHeld(s.callers)
    case Cancel(i) => i < |s.callers|
  }

  ghost predicate Inside(c: Caller) {
    c.phase.Waiting? && c.phase.inside
  }

  ghost predicate AtCondition(c: Caller) {
    Inside(c) || c.phase.Arriving? || c.phase.Releasing?
  }

  ghost predicate ConditionHeld(callers: seq<Caller>) {
    exists k :: 0 <= k < |callers| && Inside(callers[k])
  }

  /** Held or queued for, so that nobody takes it at once. */
  ghost predicate ConditionBusy(callers: seq<Caller>) {
    exists k :: 0 <= k < |callers| && AtCondition(callers[k])
  }

  /** A holder reads the last request and works out when its own may be made. */
  function Hold(t: Table, now: real, d: string, interval: real, lock: nat): Phase {
    var last := if d in t.last then t.last[d] else 0.0;
    var wait := interval - (now - last);
    Holding(lock, if wait > 0.0 then now + wait else now)
  }

  ghost function Place(s: System, i: nat, phase: Phase): System
    requires i < |s.callers|
  {
    s.(callers := s.callers[i := s.callers[i].(phase := phase)])
  }

  ghost predicate Queues(callers: seq<Caller>, lock: nat) {
    exists k :: 0 <= k < |callers| && callers[k].phase.Waiting? && callers[k].phase.lock == lock
  }

  ghost predicate OthersQueued(s: System, d: string) {
    d in s.table.locks && Queues(s.callers, s.table.locks[d])
  }

  /** A caller that is not counted yet makes a pass under the condition. */
  ghost function EnterAs(s: System, i: nat): (r: System)
    requires i < |s.callers|
    ensures r.table.retention == s.table.retention && r.table.maxDomains == s.table.maxDomains
  {
    var caller := s.callers[i];
    var (table, entry, evicted) := Enter(s.table, caller.domain, s.now, OthersQueued(s, caller.domain));
    var phase :=
      match entry
      case Saturated => Parked
      case Queued(lock, inside) => Waiting(lock, inside)
      case Acquired(lock) => Hold(table, s.now, caller.domain, caller.interval, lock);
    Place(s, i, phase).(table := table, log := s.log + if evicted.Some? then [Evicted(evicted.value)] else [])
  }

  /** A counted caller gives its place back, or queues for the condition to do so. */
  ghost function Depart(s: System, i: nat): (r: System)
    requires i < |s.callers|
    ensures r.table.retention == s.table.retention && r.table.maxDomains == s.table.maxDomains
  {
    if ConditionBusy(s.callers) then Place(s, i, Releasing)
    else Place(s, i, Gone).(table := s.table.Leave(s.callers[i].domain))
  }

  /** The request of caller `i` is made: the limiter remembers when, and frees the lock. */
  ghost function Record(s: System, i: nat): System
    requires i < |s.callers| && s.callers[i].phase.Holding?
  {
    var c := s.callers[i];
    s.(table := s.table.(last := s.table.last[c.domain := s.now]).Unlock(c.phase.heldLock),
       log := s.log + [Granted(c.domain, s.now, c.interval)])
  }

  ghost function Leak(leaked: map<string, nat>, d: string): nat {
    if d in leaked then leaked[d] else 0
  }

  ghost function Next(s: System, step: Step): (r: System)
    requires Enabled(s, step)
    ensures r.table.retention == s.table.retention && r.table.maxDomains == s.table.maxDomains
  {
    match step
    case Tick(later) => s.(now := later)
    case Call(d, interval) =>
      var u := s.(callers := s.callers + [Caller(d, interval, Arriving)]);
      if ConditionBusy(s.callers) then u else EnterAs(u, |s.callers|)
    case Retry(i) => if ConditionBusy(s.callers) then Place(s, i, Arriving) else EnterAs(s, i)
    case Admit(i) => EnterAs(s, i)
    case Acquire(i) =>
      var caller := s.callers[i];
      var lock := caller.phase.lock;
      Place(s, i, Hold(s.table, s.now, caller.domain, caller.interval, lock)).(
        table := s.table.(locked := s.table.locked + {lock}))
    case Grant(i) => Depart(Record(s, i), i)
    case Finish(i) => Place(s, i, Gone).(table := s.table.Leave(s.callers[i].domain))
    case Cancel(i) =>
      var caller := s.callers[i];
      var lost := Place(s, i, Gone).(leaked := s.leaked[caller.domain := Leak(s.leaked, caller.domain) + 1]);
      match caller.phase
      case Arriving => Place(s, i, Gone)
      case Parked => Place(s, i, Gone)
      case Waiting(_, inside) => if inside then lost else Depart(s, i)
      case Holding(lock, _) => Depart(s.(table := s.table.Unlock(lock)), i)
      case Releasing => lost
      case Gone => s
  }

  // ---- The invariant -----------------------------------------------------------

  predicate Counted(c: Caller) {
    c.phase.Waiting? || c.phase.Holding? || c.phase.Releasing?
  }

  predicate Outside(c: Caller) {
    c.phase.Arriving? || c.phase.Parked?
  }

  /** Callers that count as users of a domain. */
  ghost function Live(callers: seq<Caller>, d: string): nat {
    if callers == [] then 0
    else Live(callers[1..], d) + if Counted(callers[0]) && callers[0].domain == d then 1 else 0
  }

  lemma {:induction false} LiveUpdate(callers: seq<Caller>, i: nat, c: Caller, d: string)
    requires i < |callers|
    ensures Live(callers[i := c], d) == Live(callers, d)
            - (if Counted(callers[i]) && callers[i].domain == d then 1 else 0)
            + (if Counted(c) && c.domain == d then 1 else 0)
  {
    if i > 0 {
      assert callers[i := c][1..] == callers[1..][i - 1 := c];
      LiveUpdate(callers[1..], i - 1, c, d);
    }
  }

  lemma {:induction false} LiveAtLeast(callers: seq<Caller>, i: nat)
    requires i < |callers| && Counted(callers[i])
    ensures Live(callers, callers[i].domain) >= 1
  {
    if i > 0 {
      LiveAtLeast(callers[1..], i - 1);
    }
  }

  lemma {:induction false} LiveSnoc(callers: seq<Caller>, c: Caller, d: string)
    ensures Live(callers + [c], d) == Live(callers, d) + if Counted(c) && c.domain == d then 1 else 0
  {
    if callers == [] {
      assert callers + [c] == [c] && [c][1..] == [];
      assert Live([c][1..], d) == 0;
    } else {
      assert (callers + [c])[1..] == callers[1..] + [c];
      LiveSnoc(callers[1..], c, d);
    }
  }

  /** The last grant to a domain since it was last evicted. */
  ghost function LastGrant(log: seq<LogEntry>, d: string): Option<real> {
    if log == [] then None
    else
      var e := log[|log| - 1];
      if e.domain == d then (if e.Granted? then Some(e.at) else None) else LastGrant(log[..|log| - 1], d)
  }

  lemma LastGrantSnoc(log: seq<LogEntry>, e: LogEntry, d: string)
    ensures LastGrant(log + [e], d) ==
            if e.domain == d then (if e.Granted? then Some(e.at) else None) else LastGrant(log, d)
  {
    assert (log + [e])[..|log|] == log;
  }

  ghost predicate TableOk(t: Table) {
    && t.retention > 0.0 && t.maxDomains > 0
    && t.users.Keys == t.locks.Keys && t.last.Keys <= t.locks.Keys
    && |t.locks| <= t.maxDomains
    && Numbered(t.locks, t.nextLock)
  }

  /** A counted caller's domain is in the table, and its lock is the one there. */
  ghost predicate CallerOk(locks: map<string, nat>, locked: set<nat>, c: Caller) {
    && (Counted(c) ==> c.domain in locks)
    && (c.phase.Waiting? ==> locks[c.domain] == c.phase.lock)
    && (c.phase.Holding? ==> locks[c.domain] == c.phase.heldLock && c.phase.heldLock in locked)
  }

  ghost predicate OneHolder(callers: seq<Caller>) {
    forall i, k :: 0 <= i < k < |callers| && callers[i].phase.Holding? && callers[k].phase.Holding? ==>
                     callers[i].phase.heldLock != callers[k].phase.heldLock
  }

  ghost predicate CountsOk(users: map<string, int>, callers: seq<Caller>, leaked: map<string, nat>) {
    forall d :: UsersOf(users, d) == Live(callers, d) + Leak(leaked, d)
  }

  function Min(a: real, b: real): real {
    if a < b then a else b
  }

  /** What the limiter remembers agrees with the log, or the request is too old to matter. */
  ghost predicate MemoryOk(last: map<string, real>, retention: real, log: seq<LogEntry>, now: real) {
    forall d :: Remembers(last, retention, log, now, d)
  }

  ghost predicate Remembers(last: map<string, real>, retention: real, log: seq<LogEntry>, now: real, d: string) {
    match LastGrant(log, d)
    case None => d !in last
    case Some(g) => g <= now && (if d in last then last[d] == g else g + retention <= now)
  }

  /** A holder will not make its request before its turn. */
  ghost predicate TurnOk(retention: real, c: Caller, log: seq<LogEntry>) {
    c.phase.Holding? && LastGrant(log, c.domain).Some? ==>
      c.phase.until >= LastGrant(log, c.domain).value + Min(c.interval, retention)
  }

  /** Every grant came at least its interval (or the retention) after the one before. */
  ghost predicate Spaced(log: seq<LogEntry>, retention: real) {
    forall j :: 0 <= j < |log| && log[j].Granted? && LastGrant(log[..j], log[j].domain).Some? ==>
                  log[j].at - LastGrant(log[..j], log[j].domain).value >= Min(log[j].interval, retention)
  }

  ghost predicate Inv(s: System) {
    && TableOk(s.table)
    && (forall i :: 0 <= i < |s.callers| ==>
          CallerOk(s.table.locks, s.table.locked, s.callers[i]) && TurnOk(s.table.retention, s.callers[i], s.log))
    && OneHolder(s.callers)
    && CountsOk(s.table.users, s.callers, s.leaked)
    && MemoryOk(s.table.last, s.table.retention, s.log, s.now)
    && Spaced(s.log, s.table.retention)
  }

  // ---- Each step keeps it -------------------------------------------------------

  /** A domain with a counted caller has users, so it is neither pruned nor evicted. */
  lemma CountedHasUsers(s: System, i: nat)
    requires CountsOk(s.table.users, s.callers, s.leaked) && i < |s.callers| && Counted(s.callers[i])
    ensures s.table.Users(s.callers[i].domain) >= 1
  {
    LiveAtLeast(s.callers, i);
  }

  lemma KeysCount(a: map<string, nat>, b: map<string, nat>)
    requires a.Keys <= b.Keys
    ensures |a| <= |b|
  {
    assert b.Keys == a.Keys + (b.Keys - a.Keys);
    assert |a.Keys| <= |b.Keys|;
  }

  /** Forgetting domains nobody uses keeps everything but their memory right. */
  lemma RemoveKeeps(s: System, gone: set<string>)
    requires Inv(s)
    requires forall d :: d in gone ==> s.table.Users(d) == 0
    ensures var t := s.table.Remove(gone);
            && TableOk(t) && CountsOk(t.users, s.callers, s.leaked)
            && forall i :: 0 <= i < |s.callers| ==> CallerOk(t.locks, t.locked, s.callers[i])
  {
    RemoveTableOk(s.table, gone);
    RemoveUsers(s.table.users, gone, s.callers, s.leaked);
    forall i | 0 <= i < |s.callers| ensures CallerOk(s.table.locks - gone, s.table.locked, s.callers[i]) {
      RemoveCaller(s, gone, i);
    }
  }

  lemma RemoveTableOk(t: Table, gone: set<string>)
    requires TableOk(t)
    ensures TableOk(t.Remove(gone))
  {
    KeysCount(t.locks - gone, t.locks);
  }

  lemma RemoveUsers(users: map<string, int>, gone: set<string>, callers: seq<Caller>, leaked: map<string, nat>)
    requires CountsOk(users, callers, leaked) && forall d :: d in gone ==> UsersOf(users, d) == 0
    ensures CountsOk(users - gone, callers, leaked)
  {
    forall d ensures UsersOf(users - gone, d) == UsersOf(users, d) {
    }
  }

  lemma RemoveCaller(s: System, gone: set<string>, i: nat)
    requires Inv(s) && i < |s.callers|
    requires forall d :: d in gone ==> s.table.Users(d) == 0
    ensures CallerOk(s.table.locks - gone, s.table.locked, s.callers[i])
  {
    assert CallerOk(s.table.locks, s.table.locked, s.callers[i]);
    if Counted(s.callers[i]) {
      CountedHasUsers(s, i);
    }
  }

  lemma PruneKeepsInv(s: System)
    requires Inv(s)
    ensures Inv(s.(table := s.table.Pruned(s.now)))
  {
    var gone := s.table.Expired(s.now);
    RemoveKeeps(s, gone);
    var t := s.table.Pruned(s.now);
    forall d ensures Remembers(t.last, t.retention, s.log, s.now, d)
    {
      assert Remembers(s.table.last, s.table.retention, s.log, s.now, d);
    }
  }

  lemma EvictKeepsInv(s: System, v: string)
    requires Inv(s) && s.table.Idle(v)
    ensures Inv(s.(table := s.table.Remove({v}), log := s.log + [Evicted(v)]))
  {
    RemoveKeeps(s, {v});
    var t, log := s.table.Remove({v}), s.log + [Evicted(v)];
    forall d ensures Remembers(t.last, t.retention, log, s.now, d)
    {
      LastGrantSnoc(s.log, Evicted(v), d);
      assert Remembers(s.table.last, s.table.retention, s.log, s.now, d);
    }
    forall i | 0 <= i < |s.callers| ensures TurnOk(t.retention, s.callers[i], log) {
      LastGrantSnoc(s.log, Evicted(v), s.callers[i].domain);
      assert TurnOk(s.table.retention, s.callers[i], s.log);
    }
    assert forall j :: 0 <= j < |s.log| ==> log[..j] == s.log[..j] && log[j] == s.log[j];
  }

  /** A holder's turn, worked out from the limiter's memory, respects the log. */
  lemma HoldIsFair(s: System, c: Caller, lock: nat)
    requires MemoryOk(s.table.last, s.table.retention, s.log, s.now)
    ensures TurnOk(s.table.retention, c.(phase := Hold(s.table, s.now, c.domain, c.interval, lock)), s.log)
  {
    assert Remembers(s.table.last, s.table.retention, s.log, s.now, c.domain);
  }

  /** One caller and the table change; the rest of the invariant follows from what changed. */
  lemma OneCallerChanged(s: System, t: Table, i: nat, phase: Phase, leaked: map<string, nat>)
    requires Inv(s) && i < |s.callers|
    requires TableOk(t) && t.last == s.table.last && t.retention == s.table.retention
    requires forall d :: d in s.table.locks ==> d in t.locks && t.locks[d] == s.table.locks[d]
    requires CallerOk(t.locks, t.locked, s.callers[i].(phase := phase))
    requires TurnOk(t.retention, s.callers[i].(phase := phase), s.log)
    requires forall k :: 0 <= k < |s.callers| && k != i && s.callers[k].phase.Holding? ==>
                           s.callers[k].phase.heldLock in t.locked
                           && (phase.Holding? ==> s.callers[k].phase.heldLock != phase.heldLock)
    requires forall d :: t.Users(d) - Leak(leaked, d) == s.table.Users(d) - Leak(s.leaked, d)
                           - (if Counted(s.callers[i]) && s.callers[i].domain == d then 1 else 0)
                           + (if Counted(s.callers[i].(phase := phase)) && s.callers[i].domain == d then 1 else 0)
    ensures Inv(Place(s, i, phase).(table := t, leaked := leaked))
  {
    var u := Place(s, i, phase).(table := t, leaked := leaked);
    forall d ensures t.Users(d) == Live(u.callers, d) + Leak(leaked, d) {
      LiveUpdate(s.callers, i, u.callers[i], d);
    }
    forall k | 0 <= k < |u.callers|
      ensures CallerOk(t.locks, t.locked, u.callers[k]) && TurnOk(t.retention, u.callers[k], u.log)
    {
      if k != i {
        assert u.callers[k] == s.callers[k];
        assert CallerOk(s.table.locks, s.table.locked, s.callers[k]) && TurnOk(s.table.retention, s.callers[k], s.log);
      }
    }
    forall j, k | 0 <= j < k < |u.callers| && u.callers[j].phase.Holding? && u.callers[k].phase.Holding?
      ensures u.callers[j].phase.heldLock != u.callers[k].phase.heldLock
    {
      assert j != i ==> u.callers[j] == s.callers[j];
      assert k != i ==> u.callers[k] == s.callers[k];
    }
  }

  /** Nobody holds a lock that is not taken. */
  lemma FreeIsUnheld(s: System, lock: nat)
    requires Inv(s) && lock !in s.table.locked
    ensures forall k :: 0 <= k < |s.callers| && s.callers[k].phase.Holding? ==> s.callers[k].phase.heldLock != lock
  {
    forall k | 0 <= k < |s.callers| && s.callers[k].phase.Holding?
      ensures s.callers[k].phase.heldLock != lock
    {
      assert CallerOk(s.table.locks, s.table.locked, s.callers[k]);
    }
  }

  lemma HeldStays(s: System)
    requires Inv(s)
    ensures forall k :: 0 <= k < |s.callers| && s.callers[k].phase.Holding? ==>
                          && s.callers[k].phase.heldLock in s.table.locked
                          && s.callers[k].phase.heldLock < s.table.nextLock
  {
    forall k | 0 <= k < |s.callers| && s.callers[k].phase.Holding?
      ensures s.callers[k].phase.heldLock in s.table.locked && s.callers[k].phase.heldLock < s.table.nextLock
    {
      assert CallerOk(s.table.locks, s.table.locked, s.callers[k]);
    }
  }

  ghost predicate Numbered(locks: map<string, nat>, next: nat) {
    && (forall d :: d in locks ==> locks[d] < next)
    && (forall d, e :: d in locks && e in locks && locks[d] == locks[e] ==> d == e)
  }

  lemma NewNumber(locks: map<string, nat>, d: string, next: nat)
    requires Numbered(locks, next) && d !in locks
    ensures Numbered(locks[d := next], next + 1) && |locks[d := next]| == |locks| + 1
  {
    var more := locks[d := next];
    assert more.Keys == locks.Keys + {d};
    assert |more| == |more.Keys| && |locks| == |locks.Keys|;
  }

  lemma CreateTableOk(t: Table, d: string)
    requires TableOk(t) && d !in t.locks && |t.locks| < t.maxDomains
    ensures TableOk(t.Create(d)) && d !in t.users
  {
    NewNumber(t.locks, d, t.nextLock);
    assert t.Create(d).users.Keys == t.users.Keys + {d};
  }

  /** A new lock for a domain that is not in the table. */
  lemma CreateKeepsInv(s: System, i: nat)
    requires Inv(s) && i < |s.callers| && Outside(s.callers[i])
    requires s.callers[i].domain !in s.table.locks && |s.table.locks| < s.table.maxDomains
    ensures var c := s.callers[i];
            var t := s.table.Create(c.domain);
            Inv(Place(s, i, Hold(t, s.now, c.domain, c.interval, s.table.nextLock)).(table := t))
  {
    var c := s.callers[i];
    var t := s.table.Create(c.domain);
    CreateTableOk(s.table, c.domain);
    HeldStays(s);
    HoldIsFair(s, c, s.table.nextLock);
    OneCallerChanged(s, t, i, Hold(t, s.now, c.domain, c.interval, s.table.nextLock), s.leaked);
  }

  /** Joining a domain that is in the table: to wait for its lock, or taking it if it is free. */
  lemma WaitKeepsInv(s: System, i: nat, inside: bool)
    requires Inv(s) && i < |s.callers| && Outside(s.callers[i]) && s.callers[i].domain in s.table.locks
    ensures var d := s.callers[i].domain;
            Inv(Place(s, i, Waiting(s.table.locks[d], inside)).(table := s.table.Join(d)))
  {
    var d := s.callers[i].domain;
    HeldStays(s);
    OneCallerChanged(s, s.table.Join(d), i, Waiting(s.table.locks[d], inside), s.leaked);
  }

  lemma TakeKeepsInv(s: System, i: nat)
    requires Inv(s) && i < |s.callers| && Outside(s.callers[i]) && s.callers[i].domain in s.table.locks
    requires s.table.locks[s.callers[i].domain] !in s.table.locked
    ensures var c := s.callers[i];
            var lock := s.table.locks[c.domain];
            var t := s.table.Join(c.domain).(locked := s.table.locked + {lock});
            Inv(Place(s, i, Hold(t, s.now, c.domain, c.interval, lock)).(table := t))
  {
    var c := s.callers[i];
    var lock := s.table.locks[c.domain];
    var t := s.table.Join(c.domain).(locked := s.table.locked + {lock});
    HeldStays(s);
    FreeIsUnheld(s, lock);
    HoldIsFair(s, c, lock);
    OneCallerChanged(s, t, i, Hold(t, s.now, c.domain, c.interval, lock), s.leaked);
  }

  /** The state after pruning, and after evicting as well. */
  ghost function AfterPrune(s: System): System {
    s.(table := s.table.Pruned(s.now))
  }

  ghost function AfterEvict(s: System, v: string): System {
    s.(table := s.table.Remove({v}), log := s.log + [Evicted(v)])
  }

  lemma EnterExisting(s: System, i: nat)
    requires Inv(s) && i < |s.callers| && Outside(s.callers[i])
    requires s.callers[i].domain in AfterPrune(s).table.locks
    ensures Inv(EnterAs(s, i))
  {
    var p, c := AfterPrune(s), s.callers[i];
    var lock := p.table.locks[c.domain];
    PruneKeepsInv(s);
    assert EnterAs(s, i).log == s.log;
    if lock in p.table.locked || OthersQueued(s, c.domain) {
      var inside := lock !in p.table.locked;
      WaitKeepsInv(p, i, inside);
      assert EnterAs(s, i) == Place(p, i, Waiting(lock, inside)).(table := p.table.Join(c.domain));
    } else {
      TakeKeepsInv(p, i);
    }
  }

  lemma EnterNew(s: System, i: nat)
    requires Inv(s) && i < |s.callers| && Outside(s.callers[i])
    requires s.callers[i].domain !in AfterPrune(s).table.locks
    requires |AfterPrune(s).table.locks| < s.table.maxDomains
    ensures Inv(EnterAs(s, i))
  {
    PruneKeepsInv(s);
    assert EnterAs(s, i).log == s.log;
    CreateKeepsInv(AfterPrune(s), i);
  }

  lemma EvictAndCreate(p: System, i: nat, v: string)
    requires Inv(p) && i < |p.callers| && Outside(p.callers[i])
    requires p.callers[i].domain !in p.table.locks && p.table.Idle(v)
    ensures var c := p.callers[i];
            var e := AfterEvict(p, v);
            var t := e.table.Create(c.domain);
            Inv(Place(e, i, Hold(t, p.now, c.domain, c.interval, p.table.nextLock)).(table := t))
  {
    EvictKeepsInv(p, v);
    var e := AfterEvict(p, v);
    assert e.table.locks.Keys == p.table.locks.Keys - {v};
    assert |e.table.locks| == |e.table.locks.Keys| && |p.table.locks| == |p.table.locks.Keys|;
    CreateKeepsInv(e, i);
  }

  /** What entering a full table comes to: nothing, or an eviction and a new lock. */
  lemma FullMeans(s: System, i: nat)
    requires i < |s.callers| && Outside(s.callers[i])
    requires s.callers[i].domain !in AfterPrune(s).table.locks
    requires |AfterPrune(s).table.locks| >= s.table.maxDomains
    ensures AfterPrune(s).table.Victim().None? ==> EnterAs(s, i) == Place(AfterPrune(s), i, Parked)
    ensures AfterPrune(s).table.Victim().Some? ==>
              var p, c := AfterPrune(s), s.callers[i];
              var e := AfterEvict(p, p.table.Victim().value);
              var t := e.table.Create(c.domain);
              EnterAs(s, i) == Place(e, i, Hold(t, p.now, c.domain, c.interval, p.table.nextLock)).(table := t)
  {
    assert s.log + [] == s.log;
  }

  lemma EnterFull(s: System, i: nat)
    requires Inv(s) && i < |s.callers| && Outside(s.callers[i])
    requires s.callers[i].domain !in AfterPrune(s).table.locks
    requires |AfterPrune(s).table.locks| >= s.table.maxDomains
    ensures Inv(EnterAs(s, i))
  {
    var p := AfterPrune(s);
    PruneKeepsInv(s);
    FullMeans(s, i);
    var victim := p.table.Victim();
    if victim.Some? {
      VictimExists(p.table);
      EvictAndCreate(p, i, victim.value);
    } else {
      StayOutside(p, i, Parked);
    }
  }

  lemma StayOutside(s: System, i: nat, phase: Phase)
    requires Inv(s) && i < |s.callers| && Outside(s.callers[i])
    requires phase.Parked? || phase.Arriving? || phase.Gone?
    ensures Inv(Place(s, i, phase))
  {
    HeldStays(s);
    OneCallerChanged(s, s.table, i, phase, s.leaked);
  }

  lemma EnterKeepsInv(s: System, i: nat)
    requires Inv(s) && i < |s.callers| && Outside(s.callers[i])
    ensures Inv(EnterAs(s, i))
  {
    if s.callers[i].domain in AfterPrune(s).table.locks {
      EnterExisting(s, i);
    } else if |AfterPrune(s).table.locks| < s.table.maxDomains {
      EnterNew(s, i);
    } else {
      EnterFull(s, i);
    }
  }

  /** As `Depart` does it, with or without a stay in the queue. */
  lemma DepartKeepsInv(s: System, i: nat)
    requires i < |s.callers| && Inv(Place(s, i, Releasing))
    ensures Inv(Depart(s, i))
  {
    var queued := Place(s, i, Releasing);
    LeaveKeepsInv(queued, i);
    assert Place(queued, i, Gone) == Place(s, i, Gone);
  }

  lemma GrantKeepsInv(s: System, i: nat)
    requires Inv(s) && Enabled(s, Grant(i))
    ensures Inv(Next(s, Grant(i)))
  {
    RecordKeepsInv(s, i);
    DepartKeepsInv(Record(s, i), i);
  }

  lemma RecordKeepsInv(s: System, i: nat)
    requires Inv(s) && Enabled(s, Grant(i))
    ensures Inv(Place(Record(s, i), i, Releasing))
  {
    var c := s.callers[i];
    var u := Place(Record(s, i), i, Releasing);
    var e := Granted(c.domain, s.now, c.interval);
    assert CallerOk(s.table.locks, s.table.locked, c) && TurnOk(s.table.retention, c, s.log);
    forall d ensures Remembers(u.table.last, u.table.retention, u.log, s.now, d)
    {
      LastGrantSnoc(s.log, e, d);
      assert Remembers(s.table.last, s.table.retention, s.log, s.now, d);
    }
    forall d ensures u.table.Users(d) == Live(u.callers, d) + Leak(u.leaked, d) {
      LiveUpdate(s.callers, i, u.callers[i], d);
    }
    forall k | 0 <= k < |u.callers|
      ensures CallerOk(u.table.locks, u.table.locked, u.callers[k]) && TurnOk(u.table.retention, u.callers[k], u.log)
    {
      if k != i {
        assert CallerOk(s.table.locks, s.table.locked, s.callers[k]) && TurnOk(s.table.retention, s.callers[k], s.log);
        LastGrantSnoc(s.log, e, s.callers[k].domain);
      }
    }
    assert forall j :: 0 <= j < |s.log| ==> u.log[..j] == s.log[..j] && u.log[j] == s.log[j];
    assert u.log[..|s.log|] == s.log;
  }

  lemma CallKeepsInv(s: System, step: Step)
    requires Inv(s) && Enabled(s, step) && step.Call?
    ensures Inv(Next(s, step))
  {
    var c := Caller(step.domain, step.interval, Arriving);
    var u := s.(callers := s.callers + [c]);
    forall d ensures u.table.Users(d) == Live(u.callers, d) + Leak(u.leaked, d) {
      LiveSnoc(s.callers, c, d);
    }
    EnterKeepsInv(u, |s.callers|);
  }

  lemma AcquireKeepsInv(s: System, i: nat)
    requires Inv(s) && Enabled(s, Acquire(i))
    ensures Inv(Next(s, Acquire(i)))
  {
    var c := s.callers[i];
    assert CallerOk(s.table.locks, s.table.locked, c);
    HeldStays(s);
    FreeIsUnheld(s, c.phase.lock);
    HoldIsFair(s, c, c.phase.lock);
    OneCallerChanged(s, s.table.(locked := s.table.locked + {c.phase.lock}), i,
                     Hold(s.table, s.now, c.domain, c.interval, c.phase.lock), s.leaked);
  }

  lemma LeaveKeepsInv(s: System, i: nat)
    requires Inv(s) && i < |s.callers| && s.callers[i].phase.Releasing?
    ensures Inv(Place(s, i, Gone).(table := s.table.Leave(s.callers[i].domain)))
  {
    var c := s.callers[i];
    assert CallerOk(s.table.locks, s.table.locked, c);
    HeldStays(s);
    OneCallerChanged(s, s.table.Leave(c.domain), i, Gone, s.leaked);
  }

  /** A caller that is gone for good without giving its place back. */
  lemma LoseKeepsInv(s: System, i: nat)
    requires Inv(s) && i < |s.callers| && Counted(s.callers[i]) && !s.callers[i].phase.Holding?
    ensures var d := s.callers[i].domain;
            Inv(Place(s, i, Gone).(leaked := s.leaked[d := Leak(s.leaked, d) + 1]))
  {
    var c := s.callers[i];
    HeldStays(s);
    OneCallerChanged(s, s.table, i, Gone, s.leaked[c.domain := Leak(s.leaked, c.domain) + 1]);
  }

  /** A caller that gives up its wait, or its lock, and departs. */
  lemma GiveUpWait(s: System, i: nat)
    requires Inv(s) && i < |s.callers| && s.callers[i].phase.Waiting?
    ensures Inv(Depart(s, i))
  {
    assert CallerOk(s.table.locks, s.table.locked, s.callers[i]);
    HeldStays(s);
    OneCallerChanged(s, s.table, i, Releasing, s.leaked);
    DepartKeepsInv(s, i);
  }

  lemma GiveUpLock(s: System, i: nat)
    requires Inv(s) && i < |s.callers| && s.callers[i].phase.Holding?
    ensures Inv(Depart(s.(table := s.table.Unlock(s.callers[i].phase.heldLock)), i))
  {
    var t := s.table.Unlock(s.callers[i].phase.heldLock);
    assert CallerOk(s.table.locks, s.table.locked, s.callers[i]);
    HeldStays(s);
    OneCallerChanged(s, t, i, Releasing, s.leaked);
    DepartKeepsInv(s.(table := t), i);
  }

  lemma CancelKeepsInv(s: System, i: nat)
    requires Inv(s) && i < |s.callers|
    ensures Inv(Next(s, Cancel(i)))
  {
    match s.callers[i].phase
    case Arriving => StayOutside(s, i, Gone);
    case Parked => StayOutside(s, i, Gone);
    case Waiting(_, inside) =>
      if inside {
        LoseKeepsInv(s, i);
      } else {
        GiveUpWait(s, i);
      }
    case Holding(_, _) => GiveUpLock(s, i);
    case Releasing => LoseKeepsInv(s, i);
    case Gone =>
  }

  lemma NextKeepsInv(s: System, step: Step)
    requires Inv(s) && Enabled(s, step)
    ensures Inv(Next(s, step))
  {
    match step
    case Tick(later) =>
      forall d ensures Remembers(s.table.last, s.table.retention, s.log, later, d) {
        assert Remembers(s.table.last, s.table.retention, s.log, s.now, d);
      }
    case Call(_, _) => CallKeepsInv(s, step);
    case Retry(i) =>
      EnterKeepsInv(s, i);
      StayOutside(s, i, Arriving);
    case Admit(i) => EnterKeepsInv(s, i);
    case Acquire(i) => AcquireKeepsInv(s, i);
    case Grant(i) => GrantKeepsInv(s, i);
    case Finish(i) => LeaveKeepsInv(s, i);
    case Cancel(i) => CancelKeepsInv(s, i);
  }
}
