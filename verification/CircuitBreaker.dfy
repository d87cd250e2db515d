/** The per-domain circuit breaker (engine/resilience.py). Every method runs under one lock,
    so a run is a sequence of calls; the clock is a parameter. */
module CircuitBreakers {
  import opened Texts
  import opened Ordering

  datatype CircuitState = Closed | Opened | HalfOpen

  datatype Circuit = Circuit(state: CircuitState, failures: nat, openedAt: real, generation: nat,
                             lastAccessedAt: real)

  datatype CircuitProbe = CircuitProbe(domain: string, generation: nat)

  datatype Config = Config(maxFailures: nat, cooldown: nat, maxDomains: nat, inactiveTtl: real)
  {
    predicate Valid() {
      maxFailures > 0 && maxDomains > 0 && inactiveTtl > 0.0
    }
  }

  type Table = map<string, Circuit>

  /** `check` admits closed work, grants a probe, or raises with the cooldown left. */
  datatype Decision = Admitted | Granted(probe: CircuitProbe) | Rejected(remaining: real)

  // ---- What each call does to the table ------------------------------------------

  predicate Stale(c: Circuit, ttl: real, now: real) {
    c.state.Closed? && now - c.lastAccessedAt >= ttl
  }

  function Pruned(t: Table, ttl: real, now: real): Table {
    map d | d in t && !Stale(t[d], ttl, now) :: t[d]
  }

  function Matches(c: Circuit, domain: string, probe: Option<CircuitProbe>): bool {
    c.state.HalfOpen? && probe == Some(CircuitProbe(domain, c.generation))
  }

  /** When each closed entry was last used: the candidates for eviction. */
  function ClosedTimes(t: Table): map<string, real> {
    map d | d in t && t[d].state.Closed? :: t[d].lastAccessedAt
  }

  ghost function RoomMade(t: Table, maxDomains: nat): Table {
    if |t| < maxDomains || |ClosedTimes(t)| == 0 then t else t - {First(ClosedTimes(t))}
  }

  ghost function Checked(t0: Table, cfg: Config, domain: string, now: real): (Table, Decision) {
    var t := Pruned(t0, cfg.inactiveTtl, now);
    if domain !in t then (t, Admitted)
    else
      var c := t[domain].(lastAccessedAt := now);
      var elapsed := now - c.openedAt;
      if c.state.Closed? then (t[domain := c], Admitted)
      else if c.state.Opened? && elapsed >= cfg.cooldown as real then
        (t[domain := c.(state := HalfOpen, generation := c.generation + 1)],
         Granted(CircuitProbe(domain, c.generation + 1)))
      else
        var remaining := cfg.cooldown as real - elapsed;
        (t[domain := c], Rejected(if remaining > 0.0 then remaining else 0.0))
  }

  ghost function Succeeded(t0: Table, cfg: Config, domain: string, probe: Option<CircuitProbe>, now: real): Table {
    var t := Pruned(t0, cfg.inactiveTtl, now);
    if domain !in t then t
    else if t[domain].state.Closed? || Matches(t[domain], domain, probe) then t - {domain}
    else t[domain := t[domain].(lastAccessedAt := now)]
  }

  function Penalized(c: Circuit, cfg: Config, domain: string, probe: Option<CircuitProbe>, now: real): Circuit {
    match c.state
    case HalfOpen =>
      if Matches(c, domain, probe) then c.(state := Opened, failures := cfg.maxFailures, openedAt := now) else c
    case Opened => c
    case Closed =>
      if c.failures + 1 >= cfg.maxFailures then c.(state := Opened, failures := c.failures + 1, openedAt := now)
      else c.(failures := c.failures + 1)
  }

  ghost function Failed(t0: Table, cfg: Config, domain: string, probe: Option<CircuitProbe>, now: real): Table {
    var t := Pruned(t0, cfg.inactiveTtl, now);
    if domain in t then t[domain := Penalized(t[domain].(lastAccessedAt := now), cfg, domain, probe, now)]
    else
      var room := RoomMade(t, cfg.maxDomains);
      if |room| >= cfg.maxDomains then room
      else room[domain := Penalized(Circuit(Closed, 0, 0.0, 0, now), cfg, domain, probe, now)]
  }

  ghost function Aborted(t0: Table, cfg: Config, domain: string, probe: Option<CircuitProbe>, now: real): Table {
    var t := Pruned(t0, cfg.inactiveTtl, now);
    if domain in t && Matches(t[domain], domain, probe) then
      t[domain := t[domain].(state := Opened, lastAccessedAt := now, openedAt := now - cfg.cooldown as real)]
    else t
  }

  class CircuitBreaker {
    const cfg: Config
    var circuits: Table

    constructor (cfg: Config)
      requires cfg.Valid()
      ensures this.cfg == cfg && circuits == map[]
    {
      this.cfg, circuits := cfg, map[];
    }

    method PruneInactiveClosed(now: real)
      modifies this
      ensures circuits == Pruned(old(circuits), cfg.inactiveTtl, now)
    {
      var expired: set<string> := {};
      var left := circuits.Keys;
      while left != {}
        invariant left <= circuits.Keys && circuits == old(circuits)
        invariant expired == set d | d in circuits && d !in left && Stale(circuits[d], cfg.inactiveTtl, now)
        decreases |left|
      {
        var d :| d in left;
        if circuits[d].state.Closed? && now - circuits[d].lastAccessedAt >= cfg.inactiveTtl {
          expired := expired + {d};
        }
        left := left - {d};
      }
      circuits := circuits - expired;
    }

    method MakeRoomForClosedState()
      modifies this
      ensures circuits == RoomMade(old(circuits), cfg.maxDomains)
    {
      if |circuits| < cfg.maxDomains {
        return;
      }
      var candidates := ClosedTimes(circuits);
      if |candidates| > 0 {
        var oldest := FindFirst(candidates);
        FirstIsUnique(candidates, oldest, First(candidates));
        circuits := circuits - {oldest};
      }
    }

    method Check(domain: string, now: real) returns (decision: Decision)
      modifies this
      ensures (circuits, decision) == Checked(old(circuits), cfg, domain, now)
    {
      PruneInactiveClosed(now);
      if domain !in circuits {
        return Admitted;
      }
      if circuits[domain].state.Closed? {
        circuits := circuits[domain := circuits[domain].(lastAccessedAt := now)];
        return Admitted;
      }
      circuits := circuits[domain := circuits[domain].(lastAccessedAt := now)];
      var circuit := circuits[domain];
      var elapsed := now - circuit.openedAt;
      if circuit.state.Opened? && elapsed >= cfg.cooldown as real {
        circuits := circuits[domain := circuit.(state := HalfOpen, generation := circuit.generation + 1)];
        assert circuits == Pruned(old(circuits), cfg.inactiveTtl, now)[domain := circuits[domain]];
        return Granted(CircuitProbe(domain, circuit.generation + 1));
      }
      var remaining := cfg.cooldown as real - elapsed;
      return Rejected(if remaining > 0.0 then remaining else 0.0);
    }

    method RecordSuccess(domain: string, probe: Option<CircuitProbe>, now: real)
      modifies this
      ensures circuits == Succeeded(old(circuits), cfg, domain, probe, now)
    {
      PruneInactiveClosed(now);
      if domain !in circuits {
        return;
      }
      if circuits[domain].state.Closed? {
        circuits := circuits - {domain};
        return;
      }
      circuits := circuits[domain := circuits[domain].(lastAccessedAt := now)];
      if circuits[domain].state.HalfOpen? && Matches(circuits[domain], domain, probe) {
        circuits := circuits - {domain};
        assert circuits == Pruned(old(circuits), cfg.inactiveTtl, now) - {domain};
      }
    }

    method RecordFailure(domain: string, probe: Option<CircuitProbe>, now: real)
      modifies this
      ensures circuits == Failed(old(circuits), cfg, domain, probe, now)
    {
      PruneInactiveClosed(now);
      var circuit;
      if domain !in circuits {
        MakeRoomForClosedState();
        if |circuits| >= cfg.maxDomains {
          return;
        }
        circuit := Circuit(Closed, 0, 0.0, 0, now);
      } else {
        circuit := circuits[domain].(lastAccessedAt := now);
      }
      if circuit.state.HalfOpen? {
        if Matches(circuit, domain, probe) {
          circuit := circuit.(state := Opened, failures := cfg.maxFailures, openedAt := now);
        }
      } else if circuit.state.Closed? {
        circuit := circuit.(failures := circuit.failures + 1);
        if circuit.failures >= cfg.maxFailures {
          circuit := circuit.(state := Opened, openedAt := now);
        }
      }
      circuits := circuits[domain := circuit];
    }

    method AbortProbe(domain: string, probe: Option<CircuitProbe>, now: real)
      modifies this
      ensures circuits == Aborted(old(circuits), cfg, domain, probe, now)
    {
      PruneInactiveClosed(now);
      if domain !in circuits || !Matches(circuits[domain], domain, probe) {
        return;
      }
      circuits := circuits[domain := circuits[domain].(state := Opened, lastAccessedAt := now,
                                                       openedAt := now - cfg.cooldown as real)];
    }

    method State(domain: string, now: real) returns (state: CircuitState)
      modifies this
      ensures circuits == Pruned(old(circuits), cfg.inactiveTtl, now)
      ensures state == if domain in circuits then circuits[domain].state else Closed
    {
      PruneInactiveClosed(now);
      state := if domain in circuits then circuits[domain].state else Closed;
    }
  }

  // ---- Runs ----------------------------------------------------------------------

  datatype Call =
    | Check(domain: string)
    | Success(domain: string, probe: Option<CircuitProbe>)
    | Failure(domain: string, probe: Option<CircuitProbe>)
    | Abort(domain: string, probe: Option<CircuitProbe>)
    | Look(domain: string)

  datatype Event = Event(call: Call, now: real)

  ghost function After(t: Table, cfg: Config, e: Event): Table {
    match e.call
    case Check(d) => Checked(t, cfg, d, e.now).0
    case Success(d, p) => Succeeded(t, cfg, d, p, e.now)
    case Failure(d, p) => Failed(t, cfg, d, p, e.now)
    case Abort(d, p) => Aborted(t, cfg, d, p, e.now)
    case Look(d) => Pruned(t, cfg.inactiveTtl, e.now)
  }

  ghost function Run(t: Table, cfg: Config, events: seq<Event>): Table
    decreases |events|
  {
    if events == [] then t else Run(After(t, cfg, events[0]), cfg, events[1..])
  }

  predicate IsReport(call: Call) {
    call.Success? || call.Failure? || call.Abort?
  }

  /** A report of this very probe, about its own domain. */
  predicate Reports(call: Call, probe: CircuitProbe) {
    IsReport(call) && call.domain == probe.domain && call.probe == Some(probe)
  }

  predicate Blocked(t: Table, domain: string) {
    domain in t && !t[domain].state.Closed?
  }

  /** Equal but for when it was last used. */
  predicate SameCircuit(c: Circuit, d: Circuit) {
    c.(lastAccessedAt := 0.0) == d.(lastAccessedAt := 0.0)
  }

  /** Pruning, eviction and calls about other domains never touch an open or half-open circuit. */
  lemma OthersLeaveIt(t: Table, cfg: Config, e: Event, domain: string)
    requires Blocked(t, domain) && e.call.domain != domain
    ensures domain in After(t, cfg, e) && After(t, cfg, e)[domain] == t[domain]
  {
  }

  /** While a probe is out, no call but its own report changes its circuit or passes a check. */
  lemma ProbeStandsAlone(t: Table, cfg: Config, e: Event, probe: CircuitProbe)
    requires Holds(t, probe) && !Reports(e.call, probe)
    ensures Holds(After(t, cfg, e), probe)
    ensures SameCircuit(After(t, cfg, e)[probe.domain], t[probe.domain])
    ensures e.call.Check? && e.call.domain == probe.domain ==> Checked(t, cfg, probe.domain, e.now).1.Rejected?
  {
    if e.call.domain != probe.domain {
      OthersLeaveIt(t, cfg, e, probe.domain);
    }
  }

  /** The circuit is half-open for this probe. */
  predicate Holds(t: Table, probe: CircuitProbe) {
    probe.domain in t && t[probe.domain].state.HalfOpen? && t[probe.domain].generation == probe.generation
  }

  /** From the grant of a probe until it is reported, whatever else is called: the circuit stays
      half-open for it and every check of the domain is refused. */
  lemma {:induction false} OneProbeUntilReported(t: Table, cfg: Config, events: seq<Event>, probe: CircuitProbe)
    requires Holds(t, probe)
    requires forall i :: 0 <= i < |events| ==> !Reports(events[i].call, probe)
    ensures Holds(Run(t, cfg, events), probe)
    ensures forall i :: 0 <= i < |events| && events[i].call == Check(probe.domain) ==>
                          Checked(Run(t, cfg, events[..i]), cfg, probe.domain, events[i].now).1.Rejected?
    decreases |events|
  {
    if events != [] {
      var after := After(t, cfg, events[0]);
      ProbeStandsAlone(t, cfg, events[0], probe);
      OneProbeUntilReported(after, cfg, events[1..], probe);
      forall i | 0 <= i < |events| && events[i].call == Check(probe.domain)
        ensures Checked(Run(t, cfg, events[..i]), cfg, probe.domain, events[i].now).1.Rejected?
      {
        if i > 0 {
          assert events[..i][1..] == events[1..][..i - 1] && events[1..][i - 1] == events[i];
        }
      }
    }
  }

  /** The circuit opened at `since` and nobody has been admitted to probe it. */
  predicate OpenSince(t: Table, domain: string, since: real) {
    domain in t && t[domain].state.Opened? && t[domain].openedAt == since
  }

  lemma StaysOpen(t: Table, cfg: Config, e: Event, domain: string, since: real)
    requires OpenSince(t, domain, since) && e.now < since + cfg.cooldown as real
    ensures OpenSince(After(t, cfg, e), domain, since)
    ensures e.call == Check(domain) ==>
              Checked(t, cfg, domain, e.now).1 == Rejected(since + cfg.cooldown as real - e.now)
  {
    if e.call.domain != domain {
      OthersLeaveIt(t, cfg, e, domain);
    }
  }

  /** Until the cooldown has passed, no sequence of calls gets a check of an open circuit admitted. */
  lemma {:induction false} CooldownHolds(t: Table, cfg: Config, events: seq<Event>, domain: string, since: real)
    requires OpenSince(t, domain, since)
    requires forall i :: 0 <= i < |events| ==> events[i].now < since + cfg.cooldown as real
    ensures OpenSince(Run(t, cfg, events), domain, since)
    ensures forall i :: 0 <= i < |events| && events[i].call == Check(domain) ==>
                          Checked(Run(t, cfg, events[..i]), cfg, domain, events[i].now).1.Rejected?
    decreases |events|
  {
    if events != [] {
      var after := After(t, cfg, events[0]);
      StaysOpen(t, cfg, events[0], domain, since);
      CooldownHolds(after, cfg, events[1..], domain, since);
      forall i | 0 <= i < |events| && events[i].call == Check(domain)
        ensures Checked(Run(t, cfg, events[..i]), cfg, domain, events[i].now).1.Rejected?
      {
        if i > 0 {
          assert events[..i][1..] == events[1..][..i - 1] && events[1..][i - 1] == events[i];
        }
      }
    }
  }

  /** A check of an open circuit is granted the probe exactly when the cooldown has passed. */
  lemma ProbeAfterCooldown(t: Table, cfg: Config, domain: string, since: real, now: real)
    requires OpenSince(t, domain, since)
    ensures var (after, decision) := Checked(t, cfg, domain, now);
            && (decision.Granted? <==> now >= since + cfg.cooldown as real)
            && (decision.Granted? ==> decision.probe == CircuitProbe(domain, t[domain].generation + 1)
                                      && Holds(after, decision.probe))
            && !decision.Admitted?
  {
  }

  /** What the probe's own report does: success closes the circuit, failure opens it from now,
      and an abort opens it with its cooldown already over. */
  lemma ReportSettlesProbe(t: Table, cfg: Config, probe: CircuitProbe, now: real)
    requires Holds(t, probe)
    ensures probe.domain !in Succeeded(t, cfg, probe.domain, Some(probe), now)
    ensures OpenSince(Failed(t, cfg, probe.domain, Some(probe), now), probe.domain, now)
    ensures OpenSince(Aborted(t, cfg, probe.domain, Some(probe), now), probe.domain, now - cfg.cooldown as real)
    ensures Checked(Aborted(t, cfg, probe.domain, Some(probe), now), cfg, probe.domain, now).1.Granted?
  {
  }

  /** The success of the probe a half-open circuit waits for. */
  predicate ClosesIt(t: Table, call: Call, domain: string) {
    call.Success? && call.domain == domain && domain in t && Matches(t[domain], domain, call.probe)
  }

  /** Nothing but the success of its own probe ever unblocks a circuit. */
  lemma UnblockedOnlyByItsProbe(t: Table, cfg: Config, e: Event, domain: string)
    requires Blocked(t, domain)
    ensures Blocked(After(t, cfg, e), domain) <==> !ClosesIt(t, e.call, domain)
    ensures e.call == Check(domain) ==> !Checked(t, cfg, domain, e.now).1.Admitted?
  {
    if e.call.domain != domain {
      OthersLeaveIt(t, cfg, e, domain);
    }
  }

  /** So over any run without one, no check of the domain is ever admitted as ordinary work. */
  lemma {:induction false} NeverAdmittedUnlessProbed(t: Table, cfg: Config, events: seq<Event>, domain: string)
    requires Blocked(t, domain)
    requires forall i :: 0 <= i < |events| ==> !ClosesIt(Run(t, cfg, events[..i]), events[i].call, domain)
    ensures Blocked(Run(t, cfg, events), domain)
    ensures forall i :: 0 <= i < |events| && events[i].call == Check(domain) ==>
                          !Checked(Run(t, cfg, events[..i]), cfg, domain, events[i].now).1.Admitted?
    decreases |events|
  {
    if events != [] {
      var after := After(t, cfg, events[0]);
      assert events[..0] == [];
      UnblockedOnlyByItsProbe(t, cfg, events[0], domain);
      forall i | 0 <= i < |events| - 1
        ensures Run(after, cfg, events[1..][..i]) == Run(t, cfg, events[..i + 1])
      {
        assert events[..i + 1][1..] == events[1..][..i];
      }
      NeverAdmittedUnlessProbed(after, cfg, events[1..], domain);
      forall i | 0 <= i < |events| && events[i].call == Check(domain)
        ensures !Checked(Run(t, cfg, events[..i]), cfg, domain, events[i].now).1.Admitted?
      {
        if i > 0 {
          assert events[1..][i - 1] == events[i];
        }
      }
    }
  }

  // ---- One probe at a time, over a whole run ------------------------------------

  /** A call, and for a report with a probe the grant it reports: the ticket of a grant is its
      place in the run. */
  datatype Act = Act(event: Event, ticket: nat)

  /** Calls so far, the probe each ticket was granted, and the tickets already reported. */
  datatype Ledger = Ledger(calls: nat, granted: map<nat, CircuitProbe>, reported: set<nat>)

  datatype World = World(table: Table, ledger: Ledger)

  const NEW_WORLD: World := World(map[], Ledger(0, map[], {}))

  predicate ReportsProbe(call: Call) {
    IsReport(call) && call.probe.Some?
  }

  ghost function Book(w: World, cfg: Config, act: Act): Ledger {
    var l := w.ledger.(calls := w.ledger.calls + 1);
    var call := act.event.call;
    if ReportsProbe(call) then l.(reported := l.reported + {act.ticket})
    else if call.Check? then
      match Checked(w.table, cfg, call.domain, act.event.now).1
      case Granted(p) => l.(granted := l.granted[w.ledger.calls := p])
      case _ => l
    else l
  }

  ghost function Enact(w: World, cfg: Config, act: Act): World {
    World(After(w.table, cfg, act.event), Book(w, cfg, act))
  }

  /** The world after a run that began with an empty table. */
  ghost function WorldAfter(cfg: Config, acts: seq<Act>): World {
    if acts == [] then NEW_WORLD else Enact(WorldAfter(cfg, acts[..|acts| - 1]), cfg, acts[|acts| - 1])
  }

  /** Nobody invents a probe: a report carries the probe of the grant it reports. */
  predicate Truthful(l: Ledger, act: Act) {
    ReportsProbe(act.event.call) ==>
      act.ticket in l.granted && l.granted[act.ticket] == act.event.call.probe.value
  }

  ghost predicate TruthfulRun(cfg: Config, acts: seq<Act>) {
    forall k :: 0 <= k < |acts| ==> Truthful(WorldAfter(cfg, acts[..k]).ledger, acts[k])
  }

  /** A second report of the same grant. */
  predicate Repeats(l: Ledger, act: Act) {
    ReportsProbe(act.event.call) && act.ticket in l.reported
  }

  /** Granted and not reported. */
  predicate Out(l: Ledger, ticket: nat) {
    ticket in l.granted && ticket !in l.reported
  }

  /** A second report whose probe has the domain and generation of one that is out. */
  ghost predicate Collides(l: Ledger, act: Act) {
    && Repeats(l, act)
    && exists j :: Out(l, j) && Reports(act.event.call, l.granted[j])
  }

  /** Each probe that is out is the one its half-open circuit waits for, and no domain has two. */
  ghost predicate Sound(w: World) {
    && (forall i :: Out(w.ledger, i) ==> Holds(w.table, w.ledger.granted[i]))
    && (forall i, j :: Out(w.ledger, i) && Out(w.ledger, j) && i != j ==>
          w.ledger.granted[i].domain != w.ledger.granted[j].domain)
  }

  /** Tickets are places in the run so far, and only tickets are reported. */
  ghost predicate LedgerOk(l: Ledger) {
    (forall i :: i in l.granted ==> i < l.calls) && l.reported <= l.granted.Keys
  }

  /** A report of the probe a circuit waits for takes it away from whoever holds it. */
  lemma ReportEndsHold(t: Table, cfg: Config, e: Event, probe: CircuitProbe)
    requires Holds(t, probe)
    ensures Holds(After(t, cfg, e), probe) <==> !Reports(e.call, probe)
  {
    if Reports(e.call, probe) {
      ReportSettlesProbe(t, cfg, probe, e.now);
    } else {
      ProbeStandsAlone(t, cfg, e, probe);
    }
  }

  /** No other call than a colliding one is about a probe that stays out. */
  lemma OthersReportNothingOut(w: World, act: Act, j: nat)
    requires Sound(w) && Truthful(w.ledger, act) && !Collides(w.ledger, act)
    requires Out(w.ledger, j) && !(ReportsProbe(act.event.call) && act.ticket == j)
    ensures !Reports(act.event.call, w.ledger.granted[j])
  {
    if Reports(act.event.call, w.ledger.granted[j]) {
      assert false;
    }
  }

  /** A grant goes to a domain with no probe out. */
  lemma GrantIsAlone(w: World, cfg: Config, act: Act, j: nat)
    requires Sound(w) && Out(w.ledger, j)
    requires act.event.call.Check? && Checked(w.table, cfg, act.event.call.domain, act.event.now).1.Granted?
    ensures w.ledger.granted[j].domain != act.event.call.domain
  {
    ProbeStandsAlone(w.table, cfg, act.event, w.ledger.granted[j]);
  }

  lemma SoundUnlessCollision(w: World, cfg: Config, act: Act)
    requires Sound(w) && LedgerOk(w.ledger) && Truthful(w.ledger, act) && !Collides(w.ledger, act)
    ensures Sound(Enact(w, cfg, act))
  {
    var next := Enact(w, cfg, act);
    forall j | Out(next.ledger, j) && j in w.ledger.granted && j != w.ledger.calls
      ensures Holds(next.table, w.ledger.granted[j])
    {
      OthersReportNothingOut(w, act, j);
      ReportEndsHold(w.table, cfg, act.event, w.ledger.granted[j]);
    }
    if w.ledger.calls in next.ledger.granted {
      forall j | Out(w.ledger, j) ensures w.ledger.granted[j].domain != act.event.call.domain {
        GrantIsAlone(w, cfg, act, j);
      }
    }
  }

  lemma CollisionIsUnsound(w: World, cfg: Config, act: Act)
    requires Sound(w) && Collides(w.ledger, act)
    ensures !Sound(Enact(w, cfg, act))
  {
    var j :| Out(w.ledger, j) && Reports(act.event.call, w.ledger.granted[j]);
    ReportEndsHold(w.table, cfg, act.event, w.ledger.granted[j]);
    assert Out(Enact(w, cfg, act).ledger, j);
  }

  lemma {:induction false} LedgerStaysOk(cfg: Config, acts: seq<Act>, k: nat)
    requires TruthfulRun(cfg, acts) && k <= |acts|
    ensures LedgerOk(WorldAfter(cfg, acts[..k]).ledger)
  {
    if k > 0 {
      LedgerStaysOk(cfg, acts, k - 1);
      assert acts[..k][..k - 1] == acts[..k - 1];
    }
  }

  lemma {:induction false} SoundUpTo(cfg: Config, acts: seq<Act>, k: nat)
    requires TruthfulRun(cfg, acts) && k <= |acts|
    requires forall j :: 0 <= j < k ==> !Collides(WorldAfter(cfg, acts[..j]).ledger, acts[j])
    ensures Sound(WorldAfter(cfg, acts[..k]))
  {
    if k > 0 {
      SoundUpTo(cfg, acts, k - 1);
      LedgerStaysOk(cfg, acts, k - 1);
      assert acts[..k][..k - 1] == acts[..k - 1];
      SoundUnlessCollision(WorldAfter(cfg, acts[..k - 1]), cfg, acts[k - 1]);
    }
  }

  /** In every run, at every point, each unreported grant is the one its half-open circuit waits
      for and no domain has two, if and only if no grant is reported a second time while another
      unreported one has its domain and generation. */
  lemma SoundIffNoCollision(cfg: Config, acts: seq<Act>)
    requires TruthfulRun(cfg, acts)
    ensures (forall k :: 0 <= k <= |acts| ==> Sound(WorldAfter(cfg, acts[..k]))) <==>
            (forall k :: 0 <= k < |acts| ==> !Collides(WorldAfter(cfg, acts[..k]).ledger, acts[k]))
  {
    if forall k :: 0 <= k <= |acts| ==> Sound(WorldAfter(cfg, acts[..k])) {
      forall k | 0 <= k < |acts| ensures !Collides(WorldAfter(cfg, acts[..k]).ledger, acts[k]) {
        assert acts[..k + 1][..k] == acts[..k];
        if Collides(WorldAfter(cfg, acts[..k]).ledger, acts[k]) {
          CollisionIsUnsound(WorldAfter(cfg, acts[..k]), cfg, acts[k]);
          assert false;
        }
      }
    }
    if forall k :: 0 <= k < |acts| ==> !Collides(WorldAfter(cfg, acts[..k]).ledger, acts[k]) {
      forall k | 0 <= k <= |acts| ensures Sound(WorldAfter(cfg, acts[..k])) {
        SoundUpTo(cfg, acts, k);
      }
    }
  }

  /** So if every grant is reported at most once, no domain ever has two probes out, and no check
      of a domain with one out is granted or admitted. */
  lemma ProbesNeverOverlap(cfg: Config, acts: seq<Act>, k: nat, i: nat)
    requires TruthfulRun(cfg, acts)
    requires forall j :: 0 <= j < |acts| ==> !Repeats(WorldAfter(cfg, acts[..j]).ledger, acts[j])
    requires k <= |acts| && Out(WorldAfter(cfg, acts[..k]).ledger, i)
    ensures var w := WorldAfter(cfg, acts[..k]);
            && (forall j :: Out(w.ledger, j) && w.ledger.granted[j].domain == w.ledger.granted[i].domain ==> i == j)
            && (forall now: real :: Checked(w.table, cfg, w.ledger.granted[i].domain, now).1.Rejected?)
  {
    SoundUpTo(cfg, acts, k);
    var w := WorldAfter(cfg, acts[..k]);
    var d := w.ledger.granted[i].domain;
    forall now: real ensures Checked(w.table, cfg, d, now).1.Rejected? {
      ProbeStandsAlone(w.table, cfg, Event(Check(d), now), w.ledger.granted[i]);
    }
  }

  // ---- When two probes are out at once -----------------------------------------------

  /** No domain has two unreported grants. */
  ghost predicate Alone(l: Ledger) {
    forall i, j :: Out(l, i) && Out(l, j) && i != j ==> l.granted[i].domain != l.granted[j].domain
  }

  /** A second report of some grant takes away what the unreported grant `j` waits for. */
  predicate CollidesOn(l: Ledger, act: Act, j: nat) {
    Repeats(l, act) && Out(l, j) && Reports(act.event.call, l.granted[j])
  }

  ghost predicate GrantsProbe(w: World, cfg: Config, act: Act, d: string) {
    act.event.call == Check(d) && Checked(w.table, cfg, d, act.event.now).1.Granted?
  }

  /** Act `c` collides on grant `j`, and act `k` is granted its domain before `j` is reported. */
  ghost predicate GrantedOver(cfg: Config, acts: seq<Act>, c: int, k: int, j: nat) {
    && 0 <= c < k < |acts|
    && CollidesOn(WorldAfter(cfg, acts[..c]).ledger, acts[c], j)
    && var w := WorldAfter(cfg, acts[..k]);
       Out(w.ledger, j) && GrantsProbe(w, cfg, acts[k], w.ledger.granted[j].domain)
  }

  /** A grant that is out was out before, or has just been made and is held. */
  lemma OutBeforeOrNew(w: World, cfg: Config, act: Act, j: nat)
    requires LedgerOk(w.ledger) && Out(Enact(w, cfg, act).ledger, j)
    ensures var next := Enact(w, cfg, act);
            var p := next.ledger.granted[j];
            if j == w.ledger.calls then GrantsProbe(w, cfg, act, p.domain) && Holds(next.table, p)
            else Out(w.ledger, j) && w.ledger.granted[j] == p
  {
  }

  /** While no domain has two grants out, only a collision takes a circuit from the grant that is. */
  lemma {:induction false} FindCollision(cfg: Config, acts: seq<Act>, j: nat, k: nat) returns (c: nat)
    requires TruthfulRun(cfg, acts) && k <= |acts|
    requires forall m :: 0 <= m <= k ==> Alone(WorldAfter(cfg, acts[..m]).ledger)
    requires var w := WorldAfter(cfg, acts[..k]); Out(w.ledger, j) && !Holds(w.table, w.ledger.granted[j])
    ensures c < k && CollidesOn(WorldAfter(cfg, acts[..c]).ledger, acts[c], j)
    decreases k
  {
    if k == 0 {
      assert false;
    } else {
      var w, act := WorldAfter(cfg, acts[..k - 1]), acts[k - 1];
      OneMoreAct(cfg, acts, k - 1);
      LedgerStaysOk(cfg, acts, k - 1);
      OutBeforeOrNew(w, cfg, act, j);
      if Holds(w.table, w.ledger.granted[j]) {
        c := k - 1;
        LosingActCollides(w, cfg, act, j);
      } else {
        c := FindCollision(cfg, acts, j, k - 1);
      }
    }
  }

  lemma LosingActCollides(w: World, cfg: Config, act: Act, j: nat)
    requires Alone(w.ledger) && Truthful(w.ledger, act) && Out(w.ledger, j) && Holds(w.table, w.ledger.granted[j])
    requires Out(Book(w, cfg, act), j) && !Holds(After(w.table, cfg, act.event), w.ledger.granted[j])
    ensures CollidesOn(w.ledger, act, j)
  {
    ReportEndsHold(w.table, cfg, act.event, w.ledger.granted[j]);
    if act.ticket !in w.ledger.reported {
      assert false;
    }
  }

  lemma GrantMakesTwo(w: World, cfg: Config, act: Act, j: nat)
    requires LedgerOk(w.ledger) && Out(w.ledger, j) && GrantsProbe(w, cfg, act, w.ledger.granted[j].domain)
    ensures !Alone(Enact(w, cfg, act).ledger)
  {
    var next := Enact(w, cfg, act).ledger;
    assert Out(next, j) && Out(next, w.ledger.calls) && j != w.ledger.calls;
  }

  lemma GrantOverMakesTwo(cfg: Config, acts: seq<Act>, c: int, k: int, j: nat)
    requires TruthfulRun(cfg, acts) && GrantedOver(cfg, acts, c, k, j)
    ensures !Alone(WorldAfter(cfg, acts[..k + 1]).ledger)
  {
    OneMoreAct(cfg, acts, k);
    LedgerStaysOk(cfg, acts, k);
    GrantMakesTwo(WorldAfter(cfg, acts[..k]), cfg, acts[k], j);
  }

  /** The newcomer among two grants of one domain was made over a collision on the other. */
  lemma NewOverOld(cfg: Config, acts: seq<Act>, k: nat, j: nat)
    requires TruthfulRun(cfg, acts) && k < |acts|
    requires forall m :: 0 <= m <= k ==> Alone(WorldAfter(cfg, acts[..m]).ledger)
    requires var w := WorldAfter(cfg, acts[..k]);
             Out(w.ledger, j) && GrantsProbe(w, cfg, acts[k], w.ledger.granted[j].domain)
    ensures exists c :: GrantedOver(cfg, acts, c, k, j)
  {
    var w := WorldAfter(cfg, acts[..k]);
    if Holds(w.table, w.ledger.granted[j]) {
      ProbeStandsAlone(w.table, cfg, acts[k].event, w.ledger.granted[j]);
      assert false;
    } else {
      var c := FindCollision(cfg, acts, j, k);
      assert GrantedOver(cfg, acts, c, k, j);
    }
  }

  lemma TwoOut(cfg: Config, acts: seq<Act>, k: nat, i: nat, j: nat)
    requires TruthfulRun(cfg, acts) && k < |acts|
    requires forall m :: 0 <= m <= k ==> Alone(WorldAfter(cfg, acts[..m]).ledger)
    requires var next := WorldAfter(cfg, acts[..k + 1]).ledger;
             Out(next, i) && Out(next, j) && i != j && next.granted[i].domain == next.granted[j].domain
    ensures exists c, o: nat :: GrantedOver(cfg, acts, c, k, o)
  {
    var w, act := WorldAfter(cfg, acts[..k]), acts[k];
    OneMoreAct(cfg, acts, k);
    LedgerStaysOk(cfg, acts, k);
    OutBeforeOrNew(w, cfg, act, i);
    OutBeforeOrNew(w, cfg, act, j);
    NewOverOld(cfg, acts, k, if i == w.ledger.calls then j else i);
  }

  lemma AloneNext(cfg: Config, acts: seq<Act>, k: nat)
    requires TruthfulRun(cfg, acts) && k < |acts|
    requires forall m :: 0 <= m <= k ==> Alone(WorldAfter(cfg, acts[..m]).ledger)
    requires forall c, o: nat :: !GrantedOver(cfg, acts, c, k, o)
    ensures Alone(WorldAfter(cfg, acts[..k + 1]).ledger)
  {
    var next := WorldAfter(cfg, acts[..k + 1]).ledger;
    if i: nat, j: nat :| Out(next, i) && Out(next, j) && i != j && next.granted[i].domain == next.granted[j].domain {
      TwoOut(cfg, acts, k, i, j);
      assert false;
    }
  }

  lemma {:induction false} AloneAfter(cfg: Config, acts: seq<Act>, m: nat)
    requires TruthfulRun(cfg, acts) && m <= |acts|
    requires forall c, k, j: nat :: !GrantedOver(cfg, acts, c, k, j)
    ensures Alone(WorldAfter(cfg, acts[..m]).ledger)
  {
    if m == 0 {
      assert acts[..0] == [];
    } else {
      forall k | 0 <= k < m
        ensures Alone(WorldAfter(cfg, acts[..k]).ledger)
      {
        AloneAfter(cfg, acts, k);
      }
      AloneNext(cfg, acts, m - 1);
    }
  }

  /** In every run, two grants of one domain are never unreported at once, if and only if no check
      of the domain is granted after a collision on an unreported grant and before its report. */
  lemma OverlapIffGrantedOver(cfg: Config, acts: seq<Act>)
    requires TruthfulRun(cfg, acts)
    ensures (forall m :: 0 <= m <= |acts| ==> Alone(WorldAfter(cfg, acts[..m]).ledger)) <==>
            !exists c, k, j: nat :: GrantedOver(cfg, acts, c, k, j)
  {
    if c, k, j: nat :| GrantedOver(cfg, acts, c, k, j) {
      GrantOverMakesTwo(cfg, acts, c, k, j);
    } else {
      forall m | 0 <= m <= |acts|
        ensures Alone(WorldAfter(cfg, acts[..m]).ledger)
      {
        AloneAfter(cfg, acts, m);
      }
    }
  }

  /** The table of such a run is that of its calls alone. */
  lemma {:induction false} TableIsRun(cfg: Config, acts: seq<Act>)
    ensures WorldAfter(cfg, acts).table == Run(map[], cfg, Calls(acts))
  {
    if acts != [] {
      var before, last := acts[..|acts| - 1], acts[|acts| - 1];
      TableIsRun(cfg, before);
      assert Calls(acts) == Calls(before) + [last.event];
      RunAppend(map[], cfg, Calls(before), last.event);
    }
  }

  function Calls(acts: seq<Act>): (events: seq<Event>)
    ensures |events| == |acts| && forall i :: 0 <= i < |acts| ==> events[i] == acts[i].event
  {
    seq(|acts|, i requires 0 <= i < |acts| => acts[i].event)
  }

  /** What a report does to an open or half-open circuit, whoever makes it and however often:
      it changes it if and only if the circuit is half-open in the probe's own generation. */
  lemma ReportCountsByGeneration(t: Table, cfg: Config, e: Event, probe: CircuitProbe)
    requires IsReport(e.call) && e.call.domain == probe.domain && e.call.probe == Some(probe)
    requires Blocked(t, probe.domain)
    ensures var after := After(t, cfg, e);
            (probe.domain !in after || !SameCircuit(after[probe.domain], t[probe.domain])) <==> Holds(t, probe)
  {
    if Holds(t, probe) {
      ReportSettlesProbe(t, cfg, probe, e.now);
    }
  }

  /** One caller's turn: a failure opens the circuit and its check is granted a probe. */
  function Turn(d: string, at: real): seq<Act> {
    [Act(Event(Failure(d, None), at), 0), Act(Event(Check(d), at + 1.0), 0)]
  }

  /** The grant of `ticket` is reported a success. */
  function Report(d: string, ticket: nat, at: real): Act {
    Act(Event(Success(d, Some(CircuitProbe(d, 1))), at), ticket)
  }

  /** Generations restart when an entry is dropped, so the condition can fail: the first caller
      reports again, the circuit closes under the second, and a third is granted a probe while
      the second has reported nothing. */
  function StaleRun(d: string): seq<Act> {
    Turn(d, 0.0) + [Report(d, 1, 2.0)] + Turn(d, 3.0) + [Report(d, 1, 5.0)] + Turn(d, 6.0)
  }

  ghost predicate IsStaleRun(acts: seq<Act>, d: string) {
    && |acts| == 8
    && IsTurn(acts, 0, d, 0.0) && acts[2] == Report(d, 1, 2.0)
    && IsTurn(acts, 3, d, 3.0) && acts[5] == Report(d, 1, 5.0)
    && IsTurn(acts, 6, d, 6.0)
  }

  ghost predicate IsTurn(acts: seq<Act>, k: nat, d: string, at: real) {
    k + 2 <= |acts| && acts[k] == Turn(d, at)[0] && acts[k + 1] == Turn(d, at)[1]
  }

  lemma OneMoreAct(cfg: Config, acts: seq<Act>, k: nat)
    requires k < |acts|
    ensures WorldAfter(cfg, acts[..k + 1]) == Enact(WorldAfter(cfg, acts[..k]), cfg, acts[k])
  {
    assert acts[..k + 1][..k] == acts[..k];
  }

  lemma FailAct(cfg: Config, d: string, w: World, act: Act, at: real)
    requires cfg == Config(1, 0, 10, 3600.0) && w.table == map[] && act == Turn(d, at)[0]
    ensures Enact(w, cfg, act) ==
            World(map[d := Circuit(Opened, 1, at, 0, at)], w.ledger.(calls := w.ledger.calls + 1))
  {
    Opens(cfg, d, at);
  }

  lemma CheckAct(cfg: Config, d: string, w: World, act: Act, at: real)
    requires cfg == Config(1, 0, 10, 3600.0) && w.table == map[d := Circuit(Opened, 1, at, 0, at)]
    requires act == Turn(d, at)[1]
    ensures Enact(w, cfg, act) ==
            World(map[d := Circuit(HalfOpen, 1, at, 1, at + 1.0)],
                  Ledger(w.ledger.calls + 1, w.ledger.granted[w.ledger.calls := CircuitProbe(d, 1)],
                         w.ledger.reported))
  {
    Grants(cfg, d, at, at + 1.0);
  }

  lemma FailAndCheck(cfg: Config, d: string, acts: seq<Act>, k: nat, at: real, l: Ledger)
    requires cfg == Config(1, 0, 10, 3600.0) && IsTurn(acts, k, d, at)
    requires WorldAfter(cfg, acts[..k]) == World(map[], l)
    ensures WorldAfter(cfg, acts[..k + 2]) ==
            World(map[d := Circuit(HalfOpen, 1, at, 1, at + 1.0)],
                  Ledger(l.calls + 2, l.granted[l.calls + 1 := CircuitProbe(d, 1)], l.reported))
  {
    OneMoreAct(cfg, acts, k);
    FailAct(cfg, d, World(map[], l), acts[k], at);
    OneMoreAct(cfg, acts, k + 1);
    CheckAct(cfg, d, World(map[d := Circuit(Opened, 1, at, 0, at)], l.(calls := l.calls + 1)), acts[k + 1], at);
  }

  lemma ReportAct(cfg: Config, d: string, w: World, act: Act, at: real, ticket: nat, c: Circuit)
    requires w.table == map[d := c] && c.state.HalfOpen? && c.generation == 1 && act == Report(d, ticket, at)
    ensures Enact(w, cfg, act) ==
            World(map[], Ledger(w.ledger.calls + 1, w.ledger.granted, w.ledger.reported + {ticket}))
  {
    assert Pruned(map[d := c], cfg.inactiveTtl, at) == map[d := c];
  }

  /** A turn, and a report of its own grant or of an earlier one: the circuit closes either way. */
  lemma TurnAndReport(cfg: Config, d: string, acts: seq<Act>, k: nat, at: real, ticket: nat, l: Ledger)
    requires cfg == Config(1, 0, 10, 3600.0) && k + 3 <= |acts| && IsTurn(acts, k, d, at)
    requires acts[k + 2] == Report(d, ticket, at + 2.0)
    requires WorldAfter(cfg, acts[..k]) == World(map[], l)
    ensures var granted := l.granted[l.calls + 1 := CircuitProbe(d, 1)];
            && WorldAfter(cfg, acts[..k + 2]).ledger == Ledger(l.calls + 2, granted, l.reported)
            && WorldAfter(cfg, acts[..k + 3]) == World(map[], Ledger(l.calls + 3, granted, l.reported + {ticket}))
  {
    FailAndCheck(cfg, d, acts, k, at, l);
    var granted := l.granted[l.calls + 1 := CircuitProbe(d, 1)];
    OneMoreAct(cfg, acts, k + 2);
    ReportAct(cfg, d, WorldAfter(cfg, acts[..k + 2]), acts[k + 2], at + 2.0, ticket,
              Circuit(HalfOpen, 1, at, 1, at + 1.0));
  }

  lemma StaleBooks(cfg: Config, d: string, acts: seq<Act>)
    requires cfg == Config(1, 0, 10, 3600.0) && IsStaleRun(acts, d)
    ensures var p := CircuitProbe(d, 1);
            && WorldAfter(cfg, acts[..2]).ledger == Ledger(2, map[1 := p], {})
            && WorldAfter(cfg, acts[..5]).ledger == Ledger(5, map[1 := p, 4 := p], {1})
            && WorldAfter(cfg, acts[..6]) == World(map[], Ledger(6, map[1 := p, 4 := p], {1}))
            && WorldAfter(cfg, acts[..8]).ledger == Ledger(8, map[1 := p, 4 := p, 7 := p], {1})
  {
    var p := CircuitProbe(d, 1);
    assert acts[..0] == [];
    TurnAndReport(cfg, d, acts, 0, 0.0, 1, Ledger(0, map[], {}));
    TurnAndReport(cfg, d, acts, 3, 3.0, 1, Ledger(3, map[1 := p], {1}));
    FailAndCheck(cfg, d, acts, 6, 6.0, Ledger(6, map[1 := p, 4 := p], {1}));
  }

  lemma TruthfulAct(l: Ledger, d: string, acts: seq<Act>, k: nat)
    requires IsStaleRun(acts, d) && k < |acts|
    requires k == 2 || k == 5 ==> 1 in l.granted && l.granted[1] == CircuitProbe(d, 1)
    ensures Truthful(l, acts[k])
  {
    assert k == 2 || k == 5 || !ReportsProbe(acts[k].event.call);
  }

  lemma StaleRunIsTruthful(cfg: Config, d: string, acts: seq<Act>)
    requires cfg == Config(1, 0, 10, 3600.0) && IsStaleRun(acts, d)
    ensures TruthfulRun(cfg, acts)
  {
    StaleBooks(cfg, d, acts);
    forall k | 0 <= k < |acts| ensures Truthful(WorldAfter(cfg, acts[..k]).ledger, acts[k]) {
      TruthfulAct(WorldAfter(cfg, acts[..k]).ledger, d, acts, k);
    }
  }

  lemma StaleReportOverlapsProbes(cfg: Config, d: string, acts: seq<Act>)
    requires cfg == Config(1, 0, 10, 3600.0) && acts == StaleRun(d)
    ensures TruthfulRun(cfg, acts)
    ensures Collides(WorldAfter(cfg, acts[..5]).ledger, acts[5]) && !Sound(WorldAfter(cfg, acts[..6]))
    ensures var l := WorldAfter(cfg, acts[..8]).ledger;
            Out(l, 4) && Out(l, 7) && l.granted[4].domain == l.granted[7].domain == d
  {
    assert IsStaleRun(acts, d);
    StaleRunIsTruthful(cfg, d, acts);
    StaleBooks(cfg, d, acts);
    StaleCollides(WorldAfter(cfg, acts[..5]).ledger, d, acts[5]);
    assert Out(WorldAfter(cfg, acts[..6]).ledger, 4);
  }

  lemma StaleCollides(l: Ledger, d: string, act: Act)
    requires l == Ledger(5, map[1 := CircuitProbe(d, 1), 4 := CircuitProbe(d, 1)], {1}) && act == Report(d, 1, 5.0)
    ensures Collides(l, act)
  {
    assert Out(l, 4);
  }

  lemma Opens(cfg: Config, d: string, at: real)
    requires cfg == Config(1, 0, 10, 3600.0)
    ensures Failed(map[], cfg, d, None, at) == map[d := Circuit(Opened, 1, at, 0, at)]
  {
    assert Pruned(map[], cfg.inactiveTtl, at) == map[];
  }

  lemma Grants(cfg: Config, d: string, at: real, checked: real)
    requires cfg == Config(1, 0, 10, 3600.0) && at <= checked
    ensures Checked(map[d := Circuit(Opened, 1, at, 0, at)], cfg, d, checked) ==
            (map[d := Circuit(HalfOpen, 1, at, 1, checked)], Granted(CircuitProbe(d, 1)))
  {
    var open: Table := map[d := Circuit(Opened, 1, at, 0, at)];
    assert Pruned(open, cfg.inactiveTtl, checked) == open;
    assert Checked(open, cfg, d, checked).0 == map[d := Circuit(HalfOpen, 1, at, 1, checked)];
  }

  // ---- Tripping and the bounded table ------------------------------------------

  /** The table never exceeds its capacity and a closed entry is below the threshold. */
  ghost predicate TableOk(t: Table, cfg: Config) {
    |t| <= cfg.maxDomains && forall d :: d in t && t[d].state.Closed? ==> t[d].failures < cfg.maxFailures
  }

  lemma Smaller(t: Table, u: Table)
    requires t.Keys <= u.Keys
    ensures |t| <= |u|
  {
    KeysBound(t.Keys, u.Keys);
  }

  lemma KeysBound(a: set<string>, b: set<string>)
    requires a <= b
    ensures |a| <= |b|
  {
    assert b == a + (b - a);
  }

  ghost predicate BelowThreshold(c: Circuit, cfg: Config) {
    c.state.Closed? ==> c.failures < cfg.maxFailures
  }

  lemma PartIsOk(t: Table, u: Table, cfg: Config)
    requires TableOk(t, cfg) && u.Keys <= t.Keys && forall d :: d in u ==> u[d] == t[d]
    ensures TableOk(u, cfg)
  {
    Smaller(u, t);
  }

  lemma WithEntryIsOk(t: Table, domain: string, c: Circuit, cfg: Config)
    requires TableOk(t, cfg) && BelowThreshold(c, cfg) && (domain in t || |t| < cfg.maxDomains)
    ensures TableOk(t[domain := c], cfg)
  {
    var u := t[domain := c];
    assert u.Keys == t.Keys + {domain};
    assert |u.Keys| == |u| && |t.Keys| == |t|;
  }

  lemma PenalizedIsBelow(c: Circuit, cfg: Config, domain: string, probe: Option<CircuitProbe>, now: real)
    requires BelowThreshold(c, cfg)
    ensures BelowThreshold(Penalized(c, cfg, domain, probe, now), cfg)
  {
  }

  lemma FailureKeepsTable(t: Table, cfg: Config, domain: string, probe: Option<CircuitProbe>, now: real)
    requires TableOk(t, cfg) && cfg.Valid()
    ensures TableOk(Failed(t, cfg, domain, probe, now), cfg)
  {
    var pruned := Pruned(t, cfg.inactiveTtl, now);
    PartIsOk(t, pruned, cfg);
    if domain in pruned {
      var c := pruned[domain].(lastAccessedAt := now);
      PenalizedIsBelow(c, cfg, domain, probe, now);
      WithEntryIsOk(pruned, domain, Penalized(c, cfg, domain, probe, now), cfg);
    } else {
      var room := RoomMade(pruned, cfg.maxDomains);
      PartIsOk(pruned, room, cfg);
      if |room| < cfg.maxDomains {
        var c := Circuit(Closed, 0, 0.0, 0, now);
        PenalizedIsBelow(c, cfg, domain, probe, now);
        WithEntryIsOk(room, domain, Penalized(c, cfg, domain, probe, now), cfg);
      }
    }
  }

  lemma CallKeepsTable(t: Table, cfg: Config, e: Event)
    requires TableOk(t, cfg) && cfg.Valid()
    ensures TableOk(After(t, cfg, e), cfg)
  {
    if e.call.Failure? {
      FailureKeepsTable(t, cfg, e.call.domain, e.call.probe, e.now);
    } else {
      var pruned := Pruned(t, cfg.inactiveTtl, e.now);
      Smaller(pruned, t);
      Smaller(After(t, cfg, e), pruned);
    }
  }

  lemma {:induction false} TableStaysBounded(t: Table, cfg: Config, events: seq<Event>)
    requires TableOk(t, cfg) && cfg.Valid()
    ensures TableOk(Run(t, cfg, events), cfg)
    decreases |events|
  {
    if events != [] {
      CallKeepsTable(t, cfg, events[0]);
      TableStaysBounded(After(t, cfg, events[0]), cfg, events[1..]);
    }
  }

  /** Consecutive failures of one domain, none so long after the last that it expired, and with
      room in the table: the circuit opens at exactly the configured count, and not before. */
  lemma {:induction false} TripsAtTheThreshold(cfg: Config, t: Table, domain: string, times: seq<real>)
    requires cfg.Valid() && 0 < |times| <= cfg.maxFailures
    requires domain !in t && |t| < cfg.maxDomains
    requires forall i :: 0 < i < |times| ==> times[i] - times[i - 1] < cfg.inactiveTtl
    ensures var after := Run(t, cfg, Failures(domain, times));
            && domain in after && after[domain].failures == |times|
            && after[domain].lastAccessedAt == times[|times| - 1]
            && if |times| == cfg.maxFailures then OpenSince(after, domain, times[|times| - 1])
               else after[domain].state.Closed?
    decreases |times|
  {
    var last := |times| - 1;
    var now := times[last];
    var before := Failures(domain, times[..last]);
    assert Failures(domain, times) == before + [Event(Failure(domain, None), now)];
    RunAppend(t, cfg, before, Event(Failure(domain, None), now));
    if last > 0 {
      TripsAtTheThreshold(cfg, t, domain, times[..last]);
      assert times[..last][last - 1] == times[last - 1];
    } else {
      assert before == [];
      var pruned := Pruned(t, cfg.inactiveTtl, now);
      Smaller(pruned, t);
    }
  }

  function Failures(domain: string, times: seq<real>): seq<Event> {
    seq(|times|, i requires 0 <= i < |times| => Event(Failure(domain, None), times[i]))
  }

  lemma {:induction false} RunAppend(t: Table, cfg: Config, events: seq<Event>, e: Event)
    ensures Run(t, cfg, events + [e]) == After(Run(t, cfg, events), cfg, e)
    decreases |events|
  {
    if events == [] {
      assert events + [e] == [e] && [e][1..] == [];
      assert Run(t, cfg, [e]) == Run(After(t, cfg, e), cfg, [e][1..]);
    } else {
      assert (events + [e])[1..] == events[1..] + [e];
      RunAppend(After(t, cfg, events[0]), cfg, events[1..], e);
    }
  }

  // ---- What a closed circuit counts --------------------------------------------------

  /** When the domain was last checked or failed. */
  function LastUse(events: seq<Event>, d: string): Option<real> {
    if events == [] then None
    else
      var e := events[|events| - 1];
      if e.call == Check(d) || (e.call.Failure? && e.call.domain == d) then Some(e.now)
      else LastUse(events[..|events| - 1], d)
  }

  /** The domain's history has been idle for its whole lifetime. */
  predicate Expires(events: seq<Event>, cfg: Config, d: string, now: real) {
    LastUse(events, d).Some? && now - LastUse(events, d).value >= cfg.inactiveTtl
  }

  /** A first failure of another domain finds no room, and `d` is the closed circuit used least
      recently (the first by name among those). */
  ghost predicate EvictedFor(t: Table, cfg: Config, call: Call, d: string) {
    && call.Failure? && call.domain !in t && d in t && t[d].state.Closed? && |t| >= cfg.maxDomains
    && forall x :: x in t && t[x].state.Closed? && x != d ==>
                     Earlier(t[d].lastAccessedAt, d, t[x].lastAccessedAt, x)
  }

  /** A first failure finds the table full of open and half-open circuits, and is not remembered. */
  ghost predicate NoRoom(t: Table, cfg: Config, d: string) {
    d !in t && |t| >= cfg.maxDomains && forall x :: x in t ==> !t[x].state.Closed?
  }

  /** Failures of the domain in a row: since its last success, the expiry of its history, or its
      eviction. */
  ghost function Streak(cfg: Config, events: seq<Event>, d: string): nat {
    if events == [] then 0
    else
      var before, e := events[..|events| - 1], events[|events| - 1];
      var t := Pruned(Run(map[], cfg, before), cfg.inactiveTtl, e.now);
      var kept := if Expires(before, cfg, d, e.now) || EvictedFor(t, cfg, e.call, d) then 0
                  else Streak(cfg, before, d);
      if e.call.domain != d then kept
      else match e.call
        case Success(_, _) => 0
        case Failure(_, _) => if NoRoom(t, cfg, d) then 0 else kept + 1
        case _ => kept
  }

  /** A closed circuit counts the streak and remembers the last use; without one there is none. */
  ghost predicate CountsStreak(t: Table, cfg: Config, events: seq<Event>, d: string) {
    !Blocked(t, d) ==>
      if d in t then t[d].failures == Streak(cfg, events, d) && LastUse(events, d) == Some(t[d].lastAccessedAt)
      else Streak(cfg, events, d) == 0
  }

  /** Room is made by evicting exactly the closed circuit that comes first. */
  lemma RoomMadeMeans(t: Table, cfg: Config, call: Call, d: string)
    requires cfg.Valid() && call.Failure? && call.domain !in t && d in t
    ensures d in RoomMade(t, cfg.maxDomains) <==> !EvictedFor(t, cfg, call, d)
    ensures d in RoomMade(t, cfg.maxDomains) ==> RoomMade(t, cfg.maxDomains)[d] == t[d]
  {
    var times := ClosedTimes(t);
    if |t| >= cfg.maxDomains && |times| > 0 {
      var first := First(times);
      assert IsFirst(times, first);
      if EvictedFor(t, cfg, call, d) {
        assert IsFirst(times, d);
        FirstIsUnique(times, first, d);
      }
      forall x | x in t && t[x].state.Closed? && x != first
        ensures Earlier(t[first].lastAccessedAt, first, t[x].lastAccessedAt, x)
      {
        assert x in times;
      }
    } else if |times| == 0 {
      assert d !in times;
    }
  }

  lemma RoomSize(t: Table, cfg: Config, d: string)
    requires cfg.Valid() && d !in t && |t| <= cfg.maxDomains
    ensures |RoomMade(t, cfg.maxDomains)| >= cfg.maxDomains <==> NoRoom(t, cfg, d)
  {
    var times := ClosedTimes(t);
    if |t| >= cfg.maxDomains {
      if |times| == 0 {
        forall x | x in t ensures !t[x].state.Closed? {
          assert x !in times;
        }
      } else {
        var first := First(times);
        assert first in times && t[first].state.Closed?;
        assert (t - {first}).Keys == t.Keys - {first};
        assert |(t - {first}).Keys| == |t - {first}| && |t.Keys| == |t|;
      }
    }
  }

  /** Calls about other domains change a closed circuit only by expiry, or by eviction at capacity. */
  lemma OthersLeaveClosed(t: Table, cfg: Config, e: Event, d: string)
    requires cfg.Valid() && e.call.domain != d && d in t && t[d].state.Closed?
    ensures var after := After(t, cfg, e);
            var expired := e.now - t[d].lastAccessedAt >= cfg.inactiveTtl;
            && (d in after <==> !expired && !EvictedFor(Pruned(t, cfg.inactiveTtl, e.now), cfg, e.call, d))
            && (d in after ==> after[d] == t[d])
  {
    var pruned := Pruned(t, cfg.inactiveTtl, e.now);
    if e.call.Failure? && e.call.domain !in pruned && d in pruned {
      RoomMadeMeans(pruned, cfg, e.call, d);
    }
  }

  /** And they never make one. */
  lemma OthersMakeNone(t: Table, cfg: Config, e: Event, d: string)
    requires e.call.domain != d && d !in t
    ensures d !in After(t, cfg, e)
  {
  }

  lemma OthersKeepStreak(t: Table, cfg: Config, events: seq<Event>, e: Event, d: string)
    requires cfg.Valid() && t == Run(map[], cfg, events) && CountsStreak(t, cfg, events, d) && e.call.domain != d
    ensures CountsStreak(After(t, cfg, e), cfg, events + [e], d)
  {
    assert (events + [e])[..|events|] == events;
    if Blocked(t, d) {
      OthersLeaveIt(t, cfg, e, d);
    } else if d in t {
      OthersLeaveClosed(t, cfg, e, d);
    } else {
      OthersMakeNone(t, cfg, e, d);
    }
  }

  lemma OwnKeepsStreak(t: Table, cfg: Config, events: seq<Event>, e: Event, d: string)
    requires cfg.Valid() && TableOk(t, cfg)
    requires t == Run(map[], cfg, events) && CountsStreak(t, cfg, events, d) && e.call.domain == d
    ensures CountsStreak(After(t, cfg, e), cfg, events + [e], d)
    ensures !Blocked(t, d) ==> (Blocked(After(t, cfg, e), d) <==> Streak(cfg, events + [e], d) >= cfg.maxFailures)
  {
    assert (events + [e])[..|events|] == events;
    var pruned := Pruned(t, cfg.inactiveTtl, e.now);
    PartIsOk(t, pruned, cfg);
    if Blocked(t, d) {
      UnblockedOnlyByItsProbe(t, cfg, e, d);
    } else if e.call.Failure? && d !in pruned {
      RoomSize(pruned, cfg, d);
    }
  }

  lemma {:induction false} StreakUpTo(cfg: Config, events: seq<Event>, d: string)
    requires cfg.Valid()
    ensures CountsStreak(Run(map[], cfg, events), cfg, events, d) && TableOk(Run(map[], cfg, events), cfg)
    decreases |events|
  {
    if events != [] {
      var before, e := events[..|events| - 1], events[|events| - 1];
      assert events == before + [e];
      StreakUpTo(cfg, before, d);
      RunAppend(map[], cfg, before, e);
      CallKeepsTable(Run(map[], cfg, before), cfg, e);
      if e.call.domain == d {
        OwnKeepsStreak(Run(map[], cfg, before), cfg, before, e, d);
      } else {
        OthersKeepStreak(Run(map[], cfg, before), cfg, before, e, d);
      }
    }
  }

  /** In every run: while a domain's circuit is not open or half-open, it counts the domain's
      failures since its last success, expiry or eviction, which are fewer than the threshold. */
  lemma ClosedCountsInARow(cfg: Config, events: seq<Event>, d: string)
    requires cfg.Valid() && !Blocked(Run(map[], cfg, events), d)
    ensures var t := Run(map[], cfg, events);
            (if d in t then t[d].failures else 0) == Streak(cfg, events, d) < cfg.maxFailures
  {
    StreakUpTo(cfg, events, d);
  }

  /** And the next call opens it if and only if it makes that many failures in a row. */
  lemma OpensExactlyAtTheThreshold(cfg: Config, events: seq<Event>, e: Event, d: string)
    requires cfg.Valid() && !Blocked(Run(map[], cfg, events), d)
    ensures Blocked(Run(map[], cfg, events + [e]), d) <==> Streak(cfg, events + [e], d) == cfg.maxFailures
    ensures Blocked(Run(map[], cfg, events + [e]), d) ==>
              e.call.Failure? && e.call.domain == d && OpenSince(Run(map[], cfg, events + [e]), d, e.now)
  {
    var t := Run(map[], cfg, events);
    ClosedCountsInARow(cfg, events, d);
    StreakUpTo(cfg, events, d);
    RunAppend(map[], cfg, events, e);
    assert (events + [e])[..|events|] == events;
    if e.call.domain == d {
      OwnKeepsStreak(t, cfg, events, e, d);
    } else {
      if d in t {
        OthersLeaveClosed(t, cfg, e, d);
      } else {
        OthersMakeNone(t, cfg, e, d);
      }
      ClosedCountsInARow(cfg, events + [e], d);
    }
  }
}
