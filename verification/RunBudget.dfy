/** The hard limits of one run (common/budgets.py): counters, limits and a deadline.

    Each step below is one call as the event loop makes it, without an await between its checks
    and its update, so a run is a sequence of them in any order. Clock readings are parameters.
 */
module RunBudgets {
  import opened Texts

  datatype LimitName = Requests | FetchedBytes | ExtractedRecords | SerializedResultBytes

  /** BudgetExceeded: the duration limit is a time, the others are counts. */
  datatype BudgetExceeded =
    | DurationExceeded(limitSeconds: real, elapsedSeconds: real)
    | CountExceeded(name: LimitName, limit: int, observed: int)

  datatype Outcome = Accepted | Raised(error: BudgetExceeded) | ValueError

  datatype Limits = Limits(
    duration: real, requests: int, fetchedBytes: int, extractedRecords: int,
    serializedResultBytes: int, browserDebugBytes: int)

  datatype Budget = Budget(
    limits: Limits, started: real,
    requests: int, fetchedBytes: int, extractedRecords: int, estimatedResultBytes: int,
    browserDebugBytes: int, exhausted: Option<BudgetExceeded>)
  {
    function Elapsed(now: real): real {
      if now > started then now - started else 0.0
    }

    predicate Late(now: real) {
      now >= started + limits.duration
    }

    /** A recorded failure is raised again; otherwise the deadline may become one. */
    function CheckDeadline(now: real): (Budget, Outcome) {
      if exhausted.Some? then (this, Raised(exhausted.value))
      else if Late(now) then Fail(DurationExceeded(limits.duration, Elapsed(now)))
      else (this, Accepted)
    }

    function Fail(error: BudgetExceeded): (Budget, Outcome) {
      (this.(exhausted := Some(error)), Raised(error))
    }

    /** The counter, and the limit it is held to. */
    function Count(name: LimitName): int {
      match name
      case Requests => requests
      case FetchedBytes => fetchedBytes
      case ExtractedRecords => extractedRecords
      case SerializedResultBytes => estimatedResultBytes
    }

    function Limit(name: LimitName): int {
      match name
      case Requests => limits.requests
      case FetchedBytes => limits.fetchedBytes
      case ExtractedRecords => limits.extractedRecords
      case SerializedResultBytes => limits.serializedResultBytes
    }

    function Add(name: LimitName, amount: int): Budget {
      match name
      case Requests => this.(requests := requests + amount)
      case FetchedBytes => this.(fetchedBytes := fetchedBytes + amount)
      case ExtractedRecords => this.(extractedRecords := extractedRecords + amount)
      case SerializedResultBytes => this.(estimatedResultBytes := estimatedResultBytes + amount)
    }

    /** Take `amount`, or record the overrun and take nothing. */
    function Reserve(name: LimitName, amount: int, now: real): (Budget, Outcome) {
      if amount < (if name == Requests then 1 else 0) then (this, ValueError)
      else
        var (checked, outcome) := CheckDeadline(now);
        if !outcome.Accepted? then (checked, outcome)
        else if Count(name) + amount > Limit(name) then
          Fail(CountExceeded(name, Limit(name), Count(name) + amount))
        else (Add(name, amount), Accepted)
    }

    /** Compare an amount with a limit without taking it. */
    function Probe(name: LimitName, observed: int, now: real): (Budget, Outcome) {
      var (checked, outcome) := CheckDeadline(now);
      if !outcome.Accepted? then (checked, outcome)
      else if observed > Limit(name) then Fail(CountExceeded(name, Limit(name), observed))
      else (this, Accepted)
    }

    function Settle(reserved: int, issued: int): (Budget, Outcome) {
      if 0 <= issued <= reserved then (Add(Requests, issued - reserved), Accepted)
      else (this, ValueError)
    }

    /** Debug space never fails the run: a grant may be partial, or nothing. */
    function ReserveDebug(requested: int, allowPartial: bool, now: real): (Budget, Outcome, int) {
      if requested < 0 then (this, ValueError, 0)
      else
        var (checked, outcome) := CheckDeadline(now);
        if !outcome.Accepted? then (checked, outcome, 0)
        else
          var remaining := limits.browserDebugBytes - browserDebugBytes;
          var granted :=
            if requested <= remaining then requested else if allowPartial then remaining else 0;
          (this.(browserDebugBytes := browserDebugBytes + granted), Accepted, granted)
    }

    function ReleaseDebug(amount: int): (Budget, Outcome) {
      if amount < 0 then (this, ValueError)
      else
        var left := browserDebugBytes - amount;
        (this.(browserDebugBytes := if left > 0 then left else 0), Accepted)
    }
  }

  class RunBudget {
    const limits: Limits
    const started: real
    var requests: int
    var fetchedBytes: int
    var extractedRecords: int
    var estimatedResultBytes: int
    var browserDebugBytes: int
    var exhausted: Option<BudgetExceeded>

    ghost function State(): Budget
      reads this
    {
      Budget(limits, started, requests, fetchedBytes, extractedRecords, estimatedResultBytes,
             browserDebugBytes, exhausted)
    }

    constructor (limits: Limits, now: real)
      ensures State() == Budget(limits, now, 0, 0, 0, 0, 0, None)
    {
      this.limits, started := limits, now;
      requests, fetchedBytes, extractedRecords, estimatedResultBytes := 0, 0, 0, 0;
      browserDebugBytes, exhausted := 0, None;
    }

    method CheckDeadline(now: real) returns (outcome: Outcome)
      modifies this`exhausted
      ensures (State(), outcome) == old(State()).CheckDeadline(now)
    {
      if exhausted.Some? {
        return Raised(exhausted.value);
      }
      if now >= started + limits.duration {
        var error := DurationExceeded(limits.duration, if now > started then now - started else 0.0);
        exhausted := Some(error);
        return Raised(error);
      }
      return Accepted;
    }

    method Overrun(name: LimitName, limit: int, observed: int) returns (outcome: Outcome)
      modifies this`exhausted
      ensures (State(), outcome) == old(State()).Fail(CountExceeded(name, limit, observed))
    {
      exhausted := Some(CountExceeded(name, limit, observed));
      outcome := Raised(exhausted.value);
    }

    method ReserveRequests(amount: int, now: real) returns (outcome: Outcome)
      modifies this`exhausted, this`requests
      ensures (State(), outcome) == old(State()).Reserve(Requests, amount, now)
    {
      if amount < 1 {
        return ValueError;
      }
      outcome := CheckDeadline(now);
      if !outcome.Accepted? {
        return;
      }
      var observed := requests + amount;
      if observed > limits.requests {
        outcome := Overrun(Requests, limits.requests, observed);
        return;
      }
      requests := observed;
    }

    method SettleRequests(reserved: int, issued: int) returns (outcome: Outcome)
      modifies this`requests
      ensures (State(), outcome) == old(State()).Settle(reserved, issued)
    {
      if !(0 <= issued <= reserved) {
        return ValueError;
      }
      requests := requests - (reserved - issued);
      outcome := Accepted;
    }

    method CheckFetchedCapacity(amount: int, now: real) returns (outcome: Outcome)
      modifies this`exhausted
      ensures (State(), outcome) ==
              if amount < 0 then (old(State()), ValueError)
              else old(State()).Probe(FetchedBytes, old(fetchedBytes) + amount, now)
    {
      if amount < 0 {
        return ValueError;
      }
      outcome := CheckDeadline(now);
      if outcome.Accepted? && fetchedBytes + amount > limits.fetchedBytes {
        outcome := Overrun(FetchedBytes, limits.fetchedBytes, fetchedBytes + amount);
      }
    }

    method ConsumeFetchedBytes(amount: int, now: real) returns (outcome: Outcome)
      modifies this`exhausted, this`fetchedBytes
      ensures (State(), outcome) == old(State()).Reserve(FetchedBytes, amount, now)
    {
      if amount < 0 {
        return ValueError;
      }
      outcome := CheckDeadline(now);
      if !outcome.Accepted? {
        return;
      }
      var observed := fetchedBytes + amount;
      if observed > limits.fetchedBytes {
        outcome := Overrun(FetchedBytes, limits.fetchedBytes, observed);
        return;
      }
      fetchedBytes := observed;
    }

    method ReserveExtractedRecords(amount: int, now: real) returns (outcome: Outcome)
      modifies this`exhausted, this`extractedRecords
      ensures (State(), outcome) == old(State()).Reserve(ExtractedRecords, amount, now)
    {
      if amount < 0 {
        return ValueError;
      }
      outcome := CheckDeadline(now);
      if !outcome.Accepted? {
        return;
      }
      var observed := extractedRecords + amount;
      if observed > limits.extractedRecords {
        outcome := Overrun(ExtractedRecords, limits.extractedRecords, observed);
        return;
      }
      extractedRecords := observed;
    }

    method EnforceSerializedResultBytes(amount: int, now: real) returns (outcome: Outcome)
      modifies this`exhausted
      ensures (State(), outcome) == old(State()).Probe(SerializedResultBytes, amount, now)
    {
      outcome := CheckDeadline(now);
      if outcome.Accepted? && amount > limits.serializedResultBytes {
        outcome := Overrun(SerializedResultBytes, limits.serializedResultBytes, amount);
      }
    }

    method ReserveEstimatedResultBytes(amount: int, now: real) returns (outcome: Outcome)
      modifies this`exhausted, this`estimatedResultBytes
      ensures (State(), outcome) == old(State()).Reserve(SerializedResultBytes, amount, now)
    {
      if amount < 0 {
        return ValueError;
      }
      outcome := CheckDeadline(now);
      if !outcome.Accepted? {
        return;
      }
      var observed := estimatedResultBytes + amount;
      if observed > limits.serializedResultBytes {
        outcome := Overrun(SerializedResultBytes, limits.serializedResultBytes, observed);
        return;
      }
      estimatedResultBytes := observed;
    }

    method ReserveBrowserDebugBytes(requested: int, allowPartial: bool, now: real)
      returns (outcome: Outcome, granted: int)
      modifies this`exhausted, this`browserDebugBytes
      ensures (State(), outcome, granted) == old(State()).ReserveDebug(requested, allowPartial, now)
    {
      granted := 0;
      if requested < 0 {
        return ValueError, 0;
      }
      outcome := CheckDeadline(now);
      if !outcome.Accepted? {
        return;
      }
      var remaining := limits.browserDebugBytes - browserDebugBytes;
      if allowPartial {
        granted := if requested < remaining then requested else remaining;
      } else {
        granted := if requested <= remaining then requested else 0;
      }
      browserDebugBytes := browserDebugBytes + granted;
    }

    method ReleaseBrowserDebugBytes(amount: int) returns (outcome: Outcome)
      modifies this`browserDebugBytes
      ensures (State(), outcome) == old(State()).ReleaseDebug(amount)
    {
      if amount < 0 {
        return ValueError;
      }
      browserDebugBytes := if browserDebugBytes - amount > 0 then browserDebugBytes - amount else 0;
      outcome := Accepted;
    }
  }

  // ---- Whole runs ------------------------------------------------------------

  /** One step of any caller. `TimedOut` is an expired wait, which overwrites an earlier failure;
      `ExhaustDuration` does not. `Checked` compares a declared or exact size. */
  datatype Op =
    | Reserved(name: LimitName, amount: int)
    | Settled(reserved: int, issued: int)
    | Checked(name: LimitName, observed: int)
    | DebugReserved(requested: int, allowPartial: bool)
    | DebugReleased(released: int)
    | TimedOut
    | ExhaustDuration

  datatype Event = Event(op: Op, now: real)

  function Apply(b: Budget, e: Event): (Budget, Outcome) {
    match e.op
    case Reserved(name, amount) => b.Reserve(name, amount, e.now)
    case Settled(reserved, issued) => b.Settle(reserved, issued)
    case Checked(name, observed) => b.Probe(name, observed, e.now)
    case DebugReserved(requested, partial) =>
      var (after, outcome, _) := b.ReserveDebug(requested, partial, e.now); (after, outcome)
    case DebugReleased(amount) => b.ReleaseDebug(amount)
    case TimedOut => b.Fail(DurationExceeded(b.limits.duration, b.Elapsed(e.now)))
    case ExhaustDuration =>
      if b.exhausted.Some? then (b, Raised(b.exhausted.value))
      else b.Fail(DurationExceeded(b.limits.duration, b.Elapsed(e.now)))
  }

  function Run(b: Budget, events: seq<Event>): Budget
    decreases |events|
  {
    if events == [] then b else Run(Apply(b, events[0]).0, events[1..])
  }

  /** Everything accepted for a counter, less what settlements gave back. */
  function Taken(b: Budget, events: seq<Event>, name: LimitName): int
    decreases |events|
  {
    if events == [] then 0
    else
      var (after, outcome) := Apply(b, events[0]);
      var here :=
        if !outcome.Accepted? then 0
        else match events[0].op
          case Reserved(n, amount) => if n == name then amount else 0
          case Settled(reserved, issued) => if name == Requests then issued - reserved else 0
          case _ => 0;
      here + Taken(after, events[1..], name)
  }

  ghost predicate WithinLimits(b: Budget) {
    && (forall name: LimitName :: b.Count(name) <= b.Limit(name))
    && 0 <= b.browserDebugBytes <= b.limits.browserDebugBytes
  }

  /** In every run: no counter passes its limit, each counter is exactly what was accepted for
      it, and limits and start never change. */
  lemma {:induction false} CountersAreExactAndBounded(b: Budget, events: seq<Event>)
    requires WithinLimits(b)
    ensures WithinLimits(Run(b, events))
    ensures Run(b, events).limits == b.limits && Run(b, events).started == b.started
    ensures forall name: LimitName :: Run(b, events).Count(name) == b.Count(name) + Taken(b, events, name)
    decreases |events|
  {
    if events != [] {
      var after := Apply(b, events[0]).0;
      ApplyKeepsLimits(b, events[0]);
      CountersAreExactAndBounded(after, events[1..]);
    }
  }

  lemma ApplyKeepsLimits(b: Budget, e: Event)
    requires WithinLimits(b)
    ensures WithinLimits(Apply(b, e).0)
    ensures Apply(b, e).0.limits == b.limits && Apply(b, e).0.started == b.started
  {
    var after := Apply(b, e).0;
    match e.op
    case Reserved(name, amount) =>
      forall n: LimitName ensures after.Count(n) <= after.Limit(n) {
        assert b.Count(n) <= b.Limit(n);
      }
    case Settled(reserved, issued) =>
      forall n: LimitName ensures after.Count(n) <= after.Limit(n) {
        assert b.Count(n) <= b.Limit(n);
      }
    case _ =>
      forall n: LimitName ensures after.Count(n) <= after.Limit(n) {
        assert b.Count(n) <= b.Limit(n);
      }
  }

  predicate AsksForMore(op: Op) {
    op.Reserved? || op.Checked? || op.DebugReserved?
  }

  /** Once a limit has been exceeded the run stays exhausted: no later reservation, of debug space
      or anything else, and no later check is accepted, and no counter grows again. */
  lemma {:induction false} ExhaustionIsFinal(b: Budget, events: seq<Event>)
    requires b.exhausted.Some?
    ensures Run(b, events).exhausted.Some?
    ensures forall name: LimitName :: Run(b, events).Count(name) <= b.Count(name)
    ensures b.browserDebugBytes >= 0 ==> 0 <= Run(b, events).browserDebugBytes <= b.browserDebugBytes
    ensures forall i :: 0 <= i < |events| && AsksForMore(events[i].op) ==>
                          !Apply(Run(b, events[..i]), events[i]).1.Accepted?
    decreases |events|
  {
    if events != [] {
      var after := Apply(b, events[0]).0;
      ExhaustionIsFinal(after, events[1..]);
      forall i | 0 <= i < |events| && AsksForMore(events[i].op)
        ensures !Apply(Run(b, events[..i]), events[i]).1.Accepted?
      {
        if i > 0 {
          assert events[..i][1..] == events[1..][..i - 1];
          assert events[1..][i - 1] == events[i];
        }
      }
    }
  }

  // ---- When a call is accepted -------------------------------------------------------

  /** Some call of the run has raised a budget failure. */
  predicate HasRaised(b: Budget, events: seq<Event>)
    decreases |events|
  {
    events != [] && (Apply(b, events[0]).1.Raised? || HasRaised(Apply(b, events[0]).0, events[1..]))
  }

  lemma {:induction false} ExhaustedIffRaised(b: Budget, events: seq<Event>)
    ensures Run(b, events).exhausted.Some? <==> b.exhausted.Some? || HasRaised(b, events)
    decreases |events|
  {
    if events != [] {
      ExhaustedIffRaised(Apply(b, events[0]).0, events[1..]);
    }
  }

  function Fresh(limits: Limits, started: real): Budget {
    Budget(limits, started, 0, 0, 0, 0, 0, None)
  }

  /** In every run, after any calls, a reservation is accepted if and only if its amount is valid,
      no call has raised a budget failure, the deadline has not come, and everything taken so far
      and the amount together are within the limit of their kind; and it then takes that amount of
      that kind and nothing else. */
  lemma AcceptedIffItFits(limits: Limits, started: real, events: seq<Event>, name: LimitName, amount: int, now: real)
    ensures var b := Fresh(limits, started);
            var taken := Taken(b, events, name);
            var e := Event(Reserved(name, amount), now);
            var limit := match name
              case Requests => limits.requests
              case FetchedBytes => limits.fetchedBytes
              case ExtractedRecords => limits.extractedRecords
              case SerializedResultBytes => limits.serializedResultBytes;
            && (Apply(Run(b, events), e).1.Accepted? <==>
                  && amount >= (if name == Requests then 1 else 0)
                  && !HasRaised(b, events) && now < started + limits.duration && taken + amount <= limit)
            && (forall other: LimitName ::
                  Apply(Run(b, events), e).0.Count(other) - Run(b, events).Count(other) ==
                  if other == name && Apply(Run(b, events), e).1.Accepted? then amount else 0)
  {
    var b := Fresh(limits, started);
    ExhaustedIffRaised(b, events);
    CountsAreTaken(b, events, name);
  }

  lemma {:induction false} CountsAreTaken(b: Budget, events: seq<Event>, name: LimitName)
    ensures Run(b, events).Count(name) == b.Count(name) + Taken(b, events, name)
    ensures Run(b, events).limits == b.limits && Run(b, events).started == b.started
    decreases |events|
  {
    if events != [] {
      CountsAreTaken(Apply(b, events[0]).0, events[1..], name);
    }
  }

  /** The counters, by name. */
  lemma CountersByName(b: Budget)
    ensures b.Count(Requests) == b.requests && b.Count(FetchedBytes) == b.fetchedBytes
    ensures b.Count(ExtractedRecords) == b.extractedRecords
    ensures b.Count(SerializedResultBytes) == b.estimatedResultBytes
  {
  }

  /** A refusal for want of capacity, and no other, records the limit and what it would have come to. */
  lemma OverrunIsRecorded(b: Budget, name: LimitName, amount: int, now: real)
    requires b.exhausted.None? && now < b.started + b.limits.duration && amount >= 1
    requires b.Count(name) + amount > b.Limit(name)
    ensures var (after, outcome) := b.Reserve(name, amount, now);
            && outcome == Raised(CountExceeded(name, b.Limit(name), b.Count(name) + amount))
            && after == b.(exhausted := Some(outcome.error))
  {
  }

  /** A missed deadline records how long the run has taken, and never less than nothing. */
  lemma DeadlineIsRecorded(b: Budget, name: LimitName, amount: int, now: real)
    requires b.exhausted.None? && now >= b.started + b.limits.duration && amount >= 1
    ensures var (after, outcome) := b.Reserve(name, amount, now);
            && outcome.Raised? && outcome.error.DurationExceeded? && outcome.error.limitSeconds == b.limits.duration
            && outcome.error.elapsedSeconds >= 0.0
            && (now >= b.started ==> outcome.error.elapsedSeconds == now - b.started)
            && after == b.(exhausted := Some(outcome.error))
  {
  }

  /** A declared or exact size is accepted, and nothing taken, if and only if the run has not
      failed, the deadline has not come and the size is within its limit. */
  lemma ComparedIffWithin(b: Budget, name: LimitName, observed: int, now: real)
    ensures var (after, outcome) := b.Probe(name, observed, now);
            && (outcome.Accepted? <==>
                  b.exhausted.None? && now < b.started + b.limits.duration && observed <= b.Limit(name))
            && (outcome.Accepted? ==> after == b)
            && (b.exhausted.None? && now < b.started + b.limits.duration && observed > b.Limit(name) ==>
                  outcome == Raised(CountExceeded(name, b.Limit(name), observed))
                  && after == b.(exhausted := Some(outcome.error)))
  {
  }

  /** Giving back a grant of debug space undoes it; giving back too much leaves none in use. */
  lemma DebugReleaseUndoes(b: Budget, requested: int, allowPartial: bool, now: real, extra: int)
    requires 0 <= b.browserDebugBytes <= b.limits.browserDebugBytes && extra >= 0
    requires b.ReserveDebug(requested, allowPartial, now).1.Accepted?
    ensures var (after, _, granted) := b.ReserveDebug(requested, allowPartial, now);
            && after.ReleaseDebug(granted) == (b, Accepted)
            && after.ReleaseDebug(after.browserDebugBytes + extra) == (b.(browserDebugBytes := 0), Accepted)
  {
  }

  /** Debug space: as much as is asked for if it fits; otherwise nothing, or with `allowPartial`
      whatever is left. It never fails the run for want of space. */
  lemma DebugGrantIsLargest(b: Budget, requested: int, allowPartial: bool, now: real, more: int)
    requires 0 <= b.browserDebugBytes <= b.limits.browserDebugBytes
    requires b.exhausted.None? && now < b.started + b.limits.duration && requested >= 0
    ensures var (after, outcome, granted) := b.ReserveDebug(requested, allowPartial, now);
            && outcome.Accepted? && after == b.(browserDebugBytes := b.browserDebugBytes + granted)
            && 0 <= granted <= requested && after.browserDebugBytes <= b.limits.browserDebugBytes
            && (allowPartial || granted == 0 || granted == requested)
            && (granted < more <= requested && (allowPartial || more == requested) ==>
                  b.browserDebugBytes + more > b.limits.browserDebugBytes)
  {
  }
}
