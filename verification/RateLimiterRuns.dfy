/** What holds over whole runs of the local rate limiter. */
module RateLimiterRuns {
  import opened Texts
  import opened DomainRateLimiter
  import opened RateLimiterCallers

  ghost predicate ValidRun(s: System, steps: seq<Step>)
    decreases |steps|
  {
    steps == [] || (Enabled(s, steps[0]) && ValidRun(Next(s, steps[0]), steps[1..]))
  }

  ghost function RunAll(s: System, steps: seq<Step>): System
    requires ValidRun(s, steps)
    decreases |steps|
  {
    if steps == [] then s else RunAll(Next(s, steps[0]), steps[1..])
  }

  ghost predicate Initial(s: System) {
    && s.table.retention > 0.0 && s.table.maxDomains > 0
    && s.table.locks == map[] && s.table.users == map[] && s.table.last == map[] && s.table.locked == {}
    && s.callers == [] && s.leaked == map[] && s.log == []
  }

  lemma {:induction false} RunKeepsInv(s: System, steps: seq<Step>)
    requires Inv(s) && ValidRun(s, steps)
    ensures Inv(RunAll(s, steps))
    ensures RunAll(s, steps).table.retention == s.table.retention
    ensures RunAll(s, steps).table.maxDomains == s.table.maxDomains
    decreases |steps|
  {
    if steps != [] {
      NextKeepsInv(s, steps[0]);
      RunKeepsInv(Next(s, steps[0]), steps[1..]);
    }
  }

  /** In every run: grants to a domain that was not evicted in between are at least the caller's
      interval apart, while the interval is at most the retention. */
  lemma GrantsAreSpaced(s: System, steps: seq<Step>)
    requires Initial(s) && ValidRun(s, steps)
    ensures var log := RunAll(s, steps).log;
            forall j :: 0 <= j < |log| && log[j].Granted? && log[j].interval <= s.table.retention
                        && LastGrant(log[..j], log[j].domain).Some? ==>
                          log[j].at - LastGrant(log[..j], log[j].domain).value >= log[j].interval
  {
    RunKeepsInv(s, steps);
  }

  /** In every run: a domain has at most one holder; all its holders and waiters share the one
      lock in the table; nobody counted is ever missing from the table, which keeps its bound. */
  lemma OneLockPerDomain(s: System, steps: seq<Step>)
    requires Initial(s) && ValidRun(s, steps)
    ensures var t := RunAll(s, steps);
            && |t.table.locks| <= s.table.maxDomains
            && (forall i :: 0 <= i < |t.callers| && Counted(t.callers[i]) ==> t.callers[i].domain in t.table.locks)
            && (forall i :: 0 <= i < |t.callers| && t.callers[i].phase.Waiting? ==>
                  t.table.locks[t.callers[i].domain] == t.callers[i].phase.lock)
            && (forall i :: 0 <= i < |t.callers| && t.callers[i].phase.Holding? ==>
                  t.table.locks[t.callers[i].domain] == t.callers[i].phase.heldLock)
            && (forall i, k | 0 <= i < k < |t.callers| ::
                  t.callers[i].phase.Holding? && t.callers[k].phase.Holding? ==>
                    t.callers[i].domain != t.callers[k].domain)
  {
    RunKeepsInv(s, steps);
    var t := RunAll(s, steps);
    forall i | 0 <= i < |t.callers| ensures CallerOk(t.table.locks, t.table.locked, t.callers[i]) {
    }
  }

  // ---- Whose the taken locks are -----------------------------------------------------

  ghost predicate Holds(c: Caller, lock: nat) {
    c.phase.Holding? && c.phase.heldLock == lock
  }

  ghost predicate TakenAreHeld(locked: set<nat>, callers: seq<Caller>) {
    forall lock :: lock in locked ==> exists i :: 0 <= i < |callers| && Holds(callers[i], lock)
  }

  lemma OneCallerMoves(locked: set<nat>, locked': set<nat>, callers: seq<Caller>, i: nat, c: Caller)
    requires TakenAreHeld(locked, callers) && i < |callers|
    requires forall lock :: lock in locked' ==> (lock in locked && !Holds(callers[i], lock)) || Holds(c, lock)
    ensures TakenAreHeld(locked', callers[i := c])
  {
    var after := callers[i := c];
    forall lock | lock in locked' ensures exists k :: 0 <= k < |after| && Holds(after[k], lock) {
      if Holds(c, lock) {
        assert Holds(after[i], lock);
      } else {
        var k :| 0 <= k < |callers| && Holds(callers[k], lock);
        assert Holds(after[k], lock);
      }
    }
  }

  lemma EnterLocks(s: System, i: nat)
    requires i < |s.callers|
    ensures EnterAs(s, i).callers == s.callers[i := EnterAs(s, i).callers[i]]
    ensures forall lock :: lock in EnterAs(s, i).table.locked ==>
                             lock in s.table.locked || Holds(EnterAs(s, i).callers[i], lock)
  {
  }

  lemma EnterKeepsHeld(s: System, i: nat)
    requires i < |s.callers| && !s.callers[i].phase.Holding? && TakenAreHeld(s.table.locked, s.callers)
    ensures TakenAreHeld(EnterAs(s, i).table.locked, EnterAs(s, i).callers)
  {
    EnterLocks(s, i);
    OneCallerMoves(s.table.locked, EnterAs(s, i).table.locked, s.callers, i, EnterAs(s, i).callers[i]);
  }

  lemma NextKeepsHeld(s: System, step: Step)
    requires Enabled(s, step) && TakenAreHeld(s.table.locked, s.callers)
    ensures TakenAreHeld(Next(s, step).table.locked, Next(s, step).callers)
  {
    var next := Next(s, step);
    match step
    case Tick(_) =>
    case Call(d, interval) =>
      var u := s.(callers := s.callers + [Caller(d, interval, Arriving)]);
      assert TakenAreHeld(u.table.locked, u.callers) by {
        assert forall i :: 0 <= i < |s.callers| ==> u.callers[i] == s.callers[i];
      }
      EnterKeepsHeld(u, |s.callers|);
    case Retry(i) =>
      EnterKeepsHeld(s, i);
      OneCallerMoves(s.table.locked, s.table.locked, s.callers, i, s.callers[i].(phase := Arriving));
    case Admit(i) => EnterKeepsHeld(s, i);
    case Acquire(i) => OneCallerMoves(s.table.locked, next.table.locked, s.callers, i, next.callers[i]);
    case Grant(i) => OneCallerMoves(s.table.locked, next.table.locked, s.callers, i, next.callers[i]);
    case Finish(i) => OneCallerMoves(s.table.locked, next.table.locked, s.callers, i, next.callers[i]);
    case Cancel(i) =>
      if !s.callers[i].phase.Gone? {
        OneCallerMoves(s.table.locked, next.table.locked, s.callers, i, next.callers[i]);
      }
  }

  lemma {:induction false} RunKeepsHeld(s: System, steps: seq<Step>)
    requires ValidRun(s, steps) && TakenAreHeld(s.table.locked, s.callers)
    ensures TakenAreHeld(RunAll(s, steps).table.locked, RunAll(s, steps).callers)
    decreases |steps|
  {
    if steps != [] {
      NextKeepsHeld(s, steps[0]);
      RunKeepsHeld(Next(s, steps[0]), steps[1..]);
    }
  }

  /** In every run, however callers are cancelled, a lock is taken if and only if a caller holds
      it: none is left taken behind. */
  lemma TakenIffHeld(s: System, steps: seq<Step>, lock: nat)
    requires Initial(s) && ValidRun(s, steps)
    ensures var t := RunAll(s, steps);
            lock in t.table.locked <==> exists i :: 0 <= i < |t.callers| && Holds(t.callers[i], lock)
  {
    RunKeepsInv(s, steps);
    RunKeepsHeld(s, steps);
    var t := RunAll(s, steps);
    forall i | 0 <= i < |t.callers| && Holds(t.callers[i], lock) ensures lock in t.table.locked {
      assert CallerOk(t.table.locks, t.table.locked, t.callers[i]);
    }
  }

  // ---- When a count drifts -----------------------------------------------------------

  /** A cancellation that leaves a caller of `d` counted: it was waiting for the condition to give
      its place back, or inside the condition for a lock that is free but promised to others. */
  ghost predicate LosesPlace(s: System, step: Step, d: string)
    requires Enabled(s, step)
  {
    && step.Cancel? && s.callers[step.i].domain == d
    && (s.callers[step.i].phase.Releasing? || (s.callers[step.i].phase.Waiting? && s.callers[step.i].phase.inside))
  }

  ghost predicate NoPlaceLost(s: System, steps: seq<Step>, d: string)
    requires ValidRun(s, steps)
    decreases |steps|
  {
    steps == [] || (!LosesPlace(s, steps[0], d) && NoPlaceLost(Next(s, steps[0]), steps[1..], d))
  }

  lemma StepLeak(s: System, step: Step, d: string)
    requires Enabled(s, step)
    ensures Leak(Next(s, step).leaked, d) == Leak(s.leaked, d) + if LosesPlace(s, step, d) then 1 else 0
  {
  }

  lemma {:induction false} RunLeak(s: System, steps: seq<Step>, d: string)
    requires ValidRun(s, steps)
    ensures Leak(RunAll(s, steps).leaked, d) >= Leak(s.leaked, d)
    ensures Leak(RunAll(s, steps).leaked, d) == Leak(s.leaked, d) <==> NoPlaceLost(s, steps, d)
    decreases |steps|
  {
    if steps != [] {
      StepLeak(s, steps[0], d);
      RunLeak(Next(s, steps[0]), steps[1..], d);
    }
  }

  /** In every run a domain's count is its live callers, if and only if no caller of it was
      cancelled in one of those two places; it is never below. */
  lemma CountsAreLiveCallers(s: System, steps: seq<Step>, d: string)
    requires Initial(s) && ValidRun(s, steps)
    ensures var t := RunAll(s, steps);
            && t.table.Users(d) >= Live(t.callers, d)
            && (t.table.Users(d) == Live(t.callers, d) <==> NoPlaceLost(s, steps, d))
  {
    RunKeepsInv(s, steps);
    RunLeak(s, steps, d);
  }

  /** Once that has happened the domain is in the table and not idle after any further run: it is
      never pruned or evicted again. */
  lemma LostPlaceIsForGood(s: System, step: Step, steps: seq<Step>, d: string)
    requires Inv(s) && Enabled(s, step) && LosesPlace(s, step, d) && ValidRun(Next(s, step), steps)
    ensures var t := RunAll(Next(s, step), steps);
            d in t.table.locks && !t.table.Idle(d) && t.table.Users(d) > Live(t.callers, d)
  {
    NextKeepsInv(s, step);
    StepLeak(s, step, d);
    RunKeepsInv(Next(s, step), steps);
    RunLeak(Next(s, step), steps, d);
  }

  ghost predicate NobodyInside(s: System, steps: seq<Step>)
    requires ValidRun(s, steps)
    decreases |steps|
  {
    !ConditionHeld(s.callers) && (steps == [] || NobodyInside(Next(s, steps[0]), steps[1..]))
  }

  /** The condition becomes busy only when somebody comes to wait inside it. */
  lemma BusyFromInside(s: System, step: Step)
    requires Enabled(s, step) && !ConditionBusy(s.callers) && !ConditionHeld(Next(s, step).callers)
    ensures !ConditionBusy(Next(s, step).callers)
  {
    var t := Next(s, step);
    forall k | 0 <= k < |t.callers| ensures !AtCondition(t.callers[k]) {
      assert k < |s.callers| ==> !AtCondition(s.callers[k]);
      assert !Inside(t.callers[k]);
    }
  }

  /** So both losses need a newcomer that waited inside the condition: without one no place is lost. */
  lemma {:induction false} NoPlaceLostUnlessInside(s: System, steps: seq<Step>, d: string)
    requires ValidRun(s, steps) && !ConditionBusy(s.callers) && NobodyInside(s, steps)
    ensures NoPlaceLost(s, steps, d)
    decreases |steps|
  {
    if steps != [] {
      assert steps[0].Cancel? ==> !AtCondition(s.callers[steps[0].i]);
      BusyFromInside(s, steps[0]);
      NoPlaceLostUnlessInside(Next(s, steps[0]), steps[1..], d);
    }
  }

  // ---- Runs in which it happens ------------------------------------------------------

  ghost predicate Leads(s: System, step: Step, t: System) {
    Enabled(s, step) && Next(s, step) == t
  }

  /** A run of `t` with one more step in front. */
  lemma LeadsThen(s: System, step: Step, t: System, rest: seq<Step>) returns (steps: seq<Step>)
    requires Leads(s, step, t) && ValidRun(t, rest)
    ensures ValidRun(s, steps) && RunAll(s, steps) == RunAll(t, rest)
  {
    steps := [step] + rest;
    assert steps[1..] == rest;
  }

  /** Nothing in the table; or one idle domain, last granted at `at`. */
  ghost predicate Empty(t: Table) {
    t.maxDomains > 0 && t.retention > 0.0 && t.locks == map[] && t.users == map[] && t.last == map[] && t.locked == {}
  }

  ghost predicate Solo(t: Table, d: string, at: real) {
    && t.maxDomains == 1 && t.retention > 0.0 && d in t.locks
    && t.locks == map[d := t.locks[d]] && t.users == map[d := 0] && t.last == map[d := at] && t.locked == {}
  }

  /** One domain, held by one caller, with nothing remembered about it. */
  ghost predicate Busy(t: Table, d: string, lock: nat) {
    t.locks == map[d := lock] && t.users == map[d := 1] && t.last == map[] && t.locked == {lock}
  }

  lemma EnterEmpty(t: Table, d: string, now: real, queued: bool)
    requires Empty(t)
    ensures var (u, entry, evicted) := Enter(t, d, now, queued);
            Busy(u, d, t.nextLock) && entry == Acquired(t.nextLock) && evicted == None
  {
    assert t.Expired(now) == {};
  }

  lemma OnlyVictim(t: Table, d: string, at: real)
    requires Solo(t, d, at)
    ensures t.Victim() == Some(d)
  {
    assert t.Idle(d);
    assert t.IdleTimes() == map[d := at];
    assert |t.IdleTimes()| == 1;
  }

  lemma PruneSolo(t: Table, d: string, now: real)
    requires Solo(t, d, now)
    ensures Solo(t.Pruned(now), d, now) && t.Pruned(now).nextLock == t.nextLock
  {
    assert t.Expired(now) == {};
    assert t.locks - {} == t.locks && t.users - {} == t.users && t.last - {} == t.last;
  }

  lemma EvictSolo(t: Table, e: string, d: string, now: real)
    requires Solo(t, e, now)
    ensures Busy(t.Remove({e}).Create(d), d, t.nextLock)
  {
    assert t.locks - {e} == map[] && t.users - {e} == map[] && t.last - {e} == map[];
  }

  lemma EnterSolo(t: Table, e: string, d: string, now: real, queued: bool)
    requires Solo(t, e, now) && e != d
    ensures var (u, entry, evicted) := Enter(t, d, now, queued);
            Busy(u, d, t.nextLock) && entry == Acquired(t.nextLock) && evicted == Some(e)
  {
    PruneSolo(t, e, now);
    var p := t.Pruned(now);
    OnlyVictim(p, e, now);
    EvictSolo(p, e, d, now);
    assert |p.locks| == 1 && d !in p.locks;
  }

  /** Nobody is there. */
  ghost predicate Quiet(callers: seq<Caller>) {
    forall k :: 0 <= k < |callers| ==> callers[k].phase.Gone?
  }

  /** The newcomer finds nothing remembered about its domain, and takes its lock at once. */
  ghost predicate Arrives(s: System, d: string, interval: real, evicted: seq<LogEntry>, t: System) {
    && Leads(s, Call(d, interval), t)
    && Busy(t.table, d, s.table.nextLock)
    && t.callers == s.callers + [Caller(d, interval, Holding(s.table.nextLock, Later(s.now, interval)))]
    && t.log == s.log + evicted && t.now == s.now
    && t.table.maxDomains == s.table.maxDomains && t.table.retention == s.table.retention
  }

  function Later(a: real, b: real): real {
    if b > a then b else a
  }

  lemma CallEmpty(s: System, d: string, interval: real) returns (t: System)
    requires Empty(s.table) && Quiet(s.callers) && 0.0 < interval
    ensures Arrives(s, d, interval, [], t)
  {
    var arriving := s.(callers := s.callers + [Caller(d, interval, Arriving)]);
    EnterEmpty(s.table, d, s.now, OthersQueued(arriving, d));
    t := Next(s, Call(d, interval));
  }

  lemma CallSolo(s: System, e: string, d: string, interval: real) returns (t: System)
    requires Solo(s.table, e, s.now) && Quiet(s.callers) && e != d && 0.0 < interval
    ensures Arrives(s, d, interval, [Evicted(e)], t)
  {
    var arriving := s.(callers := s.callers + [Caller(d, interval, Arriving)]);
    EnterSolo(s.table, e, d, s.now, OthersQueued(arriving, d));
    t := Next(s, Call(d, interval));
  }

  /** The newcomer is granted and gone in `t`, without ever being kept waiting. */
  ghost predicate VisitLeads(s: System, d: string, interval: real, t: System) {
    exists a :: Leads(s, Call(d, interval), a) && Leads(a, Grant(|s.callers|), t)
  }

  lemma VisitThen(s: System, d: string, interval: real, t: System, rest: seq<Step>) returns (steps: seq<Step>)
    requires VisitLeads(s, d, interval, t) && ValidRun(t, rest)
    ensures ValidRun(s, steps) && RunAll(s, steps) == RunAll(t, rest)
  {
    var a :| Leads(s, Call(d, interval), a) && Leads(a, Grant(|s.callers|), t);
    steps := LeadsThen(a, Grant(|s.callers|), t, rest);
    steps := LeadsThen(s, Call(d, interval), a, steps);
  }

  /** The last caller makes its request; with nobody at the condition it is gone at once. */
  lemma GrantLeads(s: System, d: string, interval: real, i: nat, lock: nat) returns (t: System)
    requires i + 1 == |s.callers| && Quiet(s.callers[..i]) && Busy(s.table, d, lock)
    requires s.callers[i] == Caller(d, interval, Holding(lock, s.now))
    ensures Leads(s, Grant(i), t)
    ensures t == s.(table := s.table.(last := map[d := s.now], locked := {}, users := map[d := 0]),
                    log := s.log + [Granted(d, s.now, interval)],
                    callers := s.callers[i := Caller(d, interval, Gone)])
  {
    t := Next(s, Grant(i));
    assert forall k :: 0 <= k < i ==> s.callers[k] == s.callers[..i][k];
    assert s.table.last[d := s.now] == map[d := s.now];
    assert s.table.Leave(d).users == map[d := 0];
  }

  /** Where a visit that was let in at once ends. */
  ghost predicate Visited(s: System, d: string, interval: real, evicted: seq<LogEntry>, t: System) {
    && Solo(t.table, d, s.now) && t.now == s.now && Quiet(t.callers)
    && t.log == s.log + evicted + [Granted(d, s.now, interval)]
  }

  lemma VisitsAtOnce(s: System, d: string, interval: real, evicted: seq<LogEntry>, a: System) returns (t: System)
    requires s.table.maxDomains == 1 && s.table.retention > 0.0 && Quiet(s.callers)
    requires 0.0 < interval <= s.now && Arrives(s, d, interval, evicted, a)
    ensures VisitLeads(s, d, interval, t) && Visited(s, d, interval, evicted, t)
  {
    var i := |s.callers|;
    assert a.callers[..i] == s.callers;
    t := GrantLeads(a, d, interval, i, s.table.nextLock);
  }

  lemma VisitEmpty(s: System, d: string, interval: real) returns (t: System)
    requires Empty(s.table) && Quiet(s.callers) && s.table.maxDomains == 1 && 0.0 < interval <= s.now
    ensures VisitLeads(s, d, interval, t) && Visited(s, d, interval, [], t)
  {
    var a := CallEmpty(s, d, interval);
    t := VisitsAtOnce(s, d, interval, [], a);
  }

  lemma VisitSolo(s: System, e: string, d: string, interval: real) returns (t: System)
    requires Solo(s.table, e, s.now) && Quiet(s.callers) && e != d && 0.0 < interval <= s.now
    ensures VisitLeads(s, d, interval, t) && Visited(s, d, interval, [Evicted(e)], t)
  {
    var a := CallSolo(s, e, d, interval);
    t := VisitsAtOnce(s, d, interval, [Evicted(e)], a);
  }

  lemma LastVisit(s: System, e: string, d: string, interval: real) returns (steps: seq<Step>)
    requires Solo(s.table, e, s.now) && Quiet(s.callers) && e != d && 0.0 < interval <= s.now
    ensures ValidRun(s, steps) && RunAll(s, steps).log == s.log + [Evicted(e), Granted(d, s.now, interval)]
  {
    var t := VisitSolo(s, e, d, interval);
    steps := VisitThen(s, d, interval, t, []);
  }

  lemma LastTwoVisits(s: System, d: string, e: string, interval: real) returns (steps: seq<Step>)
    requires Solo(s.table, d, s.now) && Quiet(s.callers) && e != d && 0.0 < interval <= s.now
    ensures ValidRun(s, steps)
    ensures RunAll(s, steps).log ==
            s.log + [Evicted(d), Granted(e, s.now, interval), Evicted(e), Granted(d, s.now, interval)]
  {
    var t := VisitSolo(s, d, e, interval);
    steps := LastVisit(t, e, d, interval);
    steps := VisitThen(s, e, interval, t, steps);
    FourEntries(s.log, Evicted(d), Granted(e, s.now, interval), Evicted(e), Granted(d, s.now, interval));
  }

  lemma FourEntries(log: seq<LogEntry>, a: LogEntry, b: LogEntry, c: LogEntry, d: LogEntry)
    ensures log + [a] + [b] + [c, d] == log + [a, b, c, d]
  {
  }

  /** Spacing fails across an eviction: with room for one domain, a visit to another makes the
      limiter forget, and the same domain is granted twice at the same time. */
  lemma EvictionLosesSpacing(s: System, d: string, e: string, interval: real) returns (steps: seq<Step>)
    requires Initial(s) && s.table.maxDomains == 1 && d != e && 0.0 < interval <= s.now
    ensures ValidRun(s, steps)
    ensures RunAll(s, steps).log == [Granted(d, s.now, interval), Evicted(d), Granted(e, s.now, interval),
                                     Evicted(e), Granted(d, s.now, interval)]
  {
    var t := VisitEmpty(s, d, interval);
    steps := LastTwoVisits(t, d, e, interval);
    steps := VisitThen(s, d, interval, t, steps);
  }

  /** In general: whenever a domain was evicted since its last grant, or never granted, whoever
      takes its lock may make its request at once, unless the clock itself is below its interval. */
  lemma ForgottenGrantDelaysNobody(s: System, steps: seq<Step>, d: string, interval: real, lock: nat)
    requires Initial(s) && ValidRun(s, steps) && LastGrant(RunAll(s, steps).log, d).None?
    ensures var t := RunAll(s, steps);
            Hold(t.table, t.now, d, interval, lock) == Holding(lock, if interval > t.now then interval else t.now)
  {
    RunKeepsInv(s, steps);
    var t := RunAll(s, steps);
    assert Remembers(t.table.last, t.table.retention, t.log, t.now, d);
  }

  /** The last grant to a domain, evicted since or not. */
  ghost function LastEver(log: seq<LogEntry>, d: string): Option<real> {
    if log == [] then None
    else
      var e := log[|log| - 1];
      if e.domain == d && e.Granted? then Some(e.at) else LastEver(log[..|log| - 1], d)
  }

  lemma {:induction false} RememberedIsLast(log: seq<LogEntry>, d: string)
    ensures LastGrant(log, d).Some? ==> LastEver(log, d) == LastGrant(log, d)
  {
    if log != [] {
      RememberedIsLast(log[..|log| - 1], d);
    }
  }

  /** Exactly when whoever takes the lock in a reachable state keeps its interval from the last
      grant: the domain was not evicted since, or the interval has passed anyway. (A grant at or
      before time zero is what an unknown domain is taken to have had.) */
  lemma SpacedIffRemembered(s: System, steps: seq<Step>, d: string, interval: real, lock: nat)
    requires Initial(s) && ValidRun(s, steps) && 0.0 < interval <= s.table.retention
    requires LastEver(RunAll(s, steps).log, d).Some?
    ensures var t := RunAll(s, steps);
            var last := LastEver(t.log, d).value;
            Hold(t.table, t.now, d, interval, lock).until >= last + interval <==>
            LastGrant(t.log, d).Some? || last + interval <= t.now || last <= 0.0
  {
    RunKeepsInv(s, steps);
    var t := RunAll(s, steps);
    RememberedIsLast(t.log, d);
    if LastGrant(t.log, d).Some? {
      HoldIsFair(t, Caller(d, interval, Parked), lock);
    } else {
      ForgottenGrantDelaysNobody(s, steps, d, interval, lock);
    }
  }

  /** And a remembered grant delays exactly: in every reachable state whoever takes the lock may
      make its request at the later of now and one interval after the domain's last grant. */
  lemma DueOneIntervalLater(s: System, steps: seq<Step>, d: string, interval: real, lock: nat)
    requires Initial(s) && ValidRun(s, steps) && 0.0 < interval <= s.table.retention
    requires LastGrant(RunAll(s, steps).log, d).Some? && LastGrant(RunAll(s, steps).log, d).value >= 0.0
    ensures var t := RunAll(s, steps);
            var last := LastGrant(t.log, d).value;
            Hold(t.table, t.now, d, interval, lock) == Holding(lock, Later(t.now, last + interval))
  {
    RunRemembers(s, steps, d);
    DueLater(RunAll(s, steps), d, interval, lock);
  }

  lemma RunRemembers(s: System, steps: seq<Step>, d: string)
    requires Initial(s) && ValidRun(s, steps)
    ensures RunAll(s, steps).table.retention == s.table.retention
    ensures var t := RunAll(s, steps); Remembers(t.table.last, t.table.retention, t.log, t.now, d)
  {
    RunKeepsInv(s, steps);
  }

  lemma DueLater(t: System, d: string, interval: real, lock: nat)
    requires Remembers(t.table.last, t.table.retention, t.log, t.now, d) && 0.0 < interval <= t.table.retention
    requires LastGrant(t.log, d).Some? && LastGrant(t.log, d).value >= 0.0
    ensures Hold(t.table, t.now, d, interval, lock) ==
            Holding(lock, Later(t.now, LastGrant(t.log, d).value + interval))
  {
  }

  // ---- Runs that lose a place --------------------------------------------------------

  /** One lock, free or taken, and what is remembered and counted about its domain. */
  ghost predicate OneDomain(t: Table, d: string, lock: nat, users: int, last: map<string, real>, taken: bool) {
    && t.locks == map[d := lock] && t.users == map[d := users] && t.last == last
    && t.locked == if taken then {lock} else {}
  }

  /** Two callers of `d`: the first has its turn ahead, the second queues for the lock. */
  ghost predicate TwoCallers(s: System, d: string, interval: real, lock: nat) {
    && OneDomain(s.table, d, lock, 2, map[], true)
    && s.callers == [Caller(d, interval, Holding(lock, interval)), Caller(d, interval, Waiting(lock, false))]
  }

  /** The first is gone; a third came before the second took the lock, and waits for it inside. */
  ghost predicate ThirdInside(s: System, d: string, interval: real, lock: nat) {
    && OneDomain(s.table, d, lock, 2, map[d := interval], false) && s.now == interval
    && s.callers == [Caller(d, interval, Gone), Caller(d, interval, Waiting(lock, false)),
                     Caller(d, interval, Waiting(lock, true))]
  }

  /** A domain in use is not pruned: a newcomer waits for a taken lock, outside the condition. */
  lemma JoinTaken(s: System, d: string, interval: real, lock: nat) returns (t: System)
    requires Busy(s.table, d, lock) && s.callers == [Caller(d, interval, Holding(lock, interval))] && interval > 0.0
    ensures Leads(s, Call(d, interval), t) && TwoCallers(t, d, interval, lock) && t.now == s.now
  {
    assert s.table.Expired(s.now) == {};
    t := Next(s, Call(d, interval));
  }

  lemma GrantFirst(s: System, d: string, interval: real, lock: nat) returns (t: System)
    requires TwoCallers(s, d, interval, lock) && s.now == interval
    ensures Leads(s, Grant(0), t) && t.now == s.now && OneDomain(t.table, d, lock, 1, map[d := interval], false)
    ensures t.callers == [Caller(d, interval, Gone), Caller(d, interval, Waiting(lock, false))]
  {
    t := Next(s, Grant(0));
    assert s.table.last[d := s.now] == map[d := s.now];
    assert s.table.Leave(d).users == map[d := 1];
  }

  lemma JoinPromised(s: System, d: string, interval: real, lock: nat) returns (t: System)
    requires OneDomain(s.table, d, lock, 1, map[d := interval], false) && s.now == interval > 0.0
    requires s.callers == [Caller(d, interval, Gone), Caller(d, interval, Waiting(lock, false))]
    ensures Leads(s, Call(d, interval), t) && ThirdInside(t, d, interval, lock)
  {
    assert s.table.Expired(s.now) == {};
    var arriving := s.(callers := s.callers + [Caller(d, interval, Arriving)]);
    assert arriving.callers[1] == s.callers[1];
    assert OthersQueued(arriving, d);
    t := Next(s, Call(d, interval));
  }

  /** The way there: the first comes before its turn and sleeps, the second queues behind it, the
      time comes, the first makes its request and is gone, and the third comes. */
  ghost predicate ThirdComes(s: System, d: string, interval: real, path: seq<System>) {
    && |path| == 5
    && Leads(s, Call(d, interval), path[0]) && Leads(path[0], Call(d, interval), path[1])
    && Leads(path[1], Tick(interval), path[2]) && Leads(path[2], Grant(0), path[3])
    && Leads(path[3], Call(d, interval), path[4])
  }

  lemma TwoCame(s: System, d: string, interval: real) returns (a: System, b: System)
    requires Initial(s) && s.now < interval && 0.0 < interval
    ensures Leads(s, Call(d, interval), a) && Leads(a, Call(d, interval), b)
    ensures TwoCallers(b, d, interval, s.table.nextLock) && b.now == s.now
  {
    a := CallEmpty(s, d, interval);
    b := JoinTaken(a, d, interval, s.table.nextLock);
  }

  lemma OneLeftOneCame(s: System, d: string, interval: real, lock: nat) returns (a: System, b: System)
    requires TwoCallers(s, d, interval, lock) && s.now == interval > 0.0
    ensures Leads(s, Grant(0), a) && Leads(a, Call(d, interval), b) && ThirdInside(b, d, interval, lock)
  {
    a := GrantFirst(s, d, interval, lock);
    b := JoinPromised(a, d, interval, lock);
  }

  lemma ThirdCame(s: System, d: string, interval: real) returns (path: seq<System>)
    requires Initial(s) && s.now < interval && 0.0 < interval
    ensures ThirdComes(s, d, interval, path) && ThirdInside(path[4], d, interval, s.table.nextLock)
  {
    var a, b := TwoCame(s, d, interval);
    var c := b.(now := interval);
    var e, t := OneLeftOneCame(c, d, interval, s.table.nextLock);
    path := [a, b, c, e, t];
  }

  lemma ThirdComesThen(s: System, d: string, interval: real, path: seq<System>, rest: seq<Step>)
    returns (steps: seq<Step>)
    requires ThirdComes(s, d, interval, path) && ValidRun(path[4], rest)
    ensures ValidRun(s, steps) && RunAll(s, steps) == RunAll(path[4], rest)
  {
    steps := LeadsThen(path[3], Call(d, interval), path[4], rest);
    steps := LeadsThen(path[2], Grant(0), path[3], steps);
    steps := LeadsThen(path[1], Tick(interval), path[2], steps);
    steps := LeadsThen(path[0], Call(d, interval), path[1], steps);
    steps := LeadsThen(s, Call(d, interval), path[0], steps);
  }

  /** A place lost on the way in: the lock was just released but a waiter is due to take it, so
      the newcomer waits for it inside the condition, and is cancelled there. */
  lemma CancelledNewcomerStaysCounted(s: System, d: string, interval: real) returns (steps: seq<Step>)
    requires Initial(s) && s.now < interval && 0.0 < interval
    ensures ValidRun(s, steps) && Enabled(RunAll(s, steps), Cancel(2))
    ensures Inside(RunAll(s, steps).callers[2]) && LosesPlace(RunAll(s, steps), Cancel(2), d)
  {
    var path := ThirdCame(s, d, interval);
    steps := ThirdComesThen(s, d, interval, path, []);
  }

  /** The second takes the lock and sleeps until its turn, while the third stays inside. */
  lemma AcquireSecond(s: System, d: string, interval: real, lock: nat) returns (t: System)
    requires ThirdInside(s, d, interval, lock) && interval > 0.0
    ensures Leads(s, Acquire(1), t) && OneDomain(t.table, d, lock, 2, map[d := interval], true)
    ensures t.now == interval && |t.callers| == 3 && Inside(t.callers[2])
    ensures t.callers[1] == Caller(d, interval, Holding(lock, interval + interval))
  {
    t := Next(s, Acquire(1));
  }

  /** It makes its request, but the condition is held: it queues to give its place back. */
  lemma GrantSecond(s: System, d: string, interval: real, lock: nat) returns (t: System)
    requires s.now == interval + interval && |s.callers| == 3 && Inside(s.callers[2])
    requires s.callers[1] == Caller(d, interval, Holding(lock, s.now))
    ensures Leads(s, Grant(1), t) && |t.callers| == 3 && Inside(t.callers[2])
    ensures t.callers[1] == Caller(d, interval, Releasing)
  {
    assert ConditionBusy(Record(s, 1).callers);
    t := Next(s, Grant(1));
  }

  lemma SecondLeaves(s: System, d: string, interval: real, lock: nat) returns (steps: seq<Step>)
    requires ThirdInside(s, d, interval, lock) && interval > 0.0
    ensures ValidRun(s, steps) && |RunAll(s, steps).callers| == 3
    ensures RunAll(s, steps).callers[1] == Caller(d, interval, Releasing) && Inside(RunAll(s, steps).callers[2])
  {
    var a := AcquireSecond(s, d, interval, lock);
    var b := a.(now := interval + interval);
    var t := GrantSecond(b, d, interval, lock);
    steps := LeadsThen(b, Grant(1), t, []);
    steps := LeadsThen(a, Tick(interval + interval), b, steps);
    steps := LeadsThen(s, Acquire(1), a, steps);
  }

  /** A place lost on the way out: going on from there, the second caller has made its request and
      waits for the condition, which the third holds, and is cancelled there. */
  lemma CancelledLeaverStaysCounted(s: System, d: string, interval: real) returns (steps: seq<Step>)
    requires Initial(s) && s.now < interval && 0.0 < interval
    ensures ValidRun(s, steps) && |RunAll(s, steps).callers| == 3 && Enabled(RunAll(s, steps), Cancel(1))
    ensures RunAll(s, steps).callers[1].phase.Releasing? && Inside(RunAll(s, steps).callers[2])
    ensures LosesPlace(RunAll(s, steps), Cancel(1), d)
  {
    var path := ThirdCame(s, d, interval);
    steps := SecondLeaves(path[4], d, interval, s.table.nextLock);
    steps := ThirdComesThen(s, d, interval, path, steps);
  }
}
