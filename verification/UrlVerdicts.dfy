/** Concurrent public-URL checks of one run (engine/url_verdicts.py): one shared lookup per
    hostname, its waiters, and the verdicts that outlive it.

    Each step is what one coroutine does between two awaits.
 */
module UrlVerdicts {
  import opened Texts
  import opened HostVerdicts

  /** How a lookup ended. `Lost` is no answer: cancelled, out of budget, or failed otherwise. */
  datatype Answer = Public | Unresolved | NonPublic | Lost

  /** Answers in the order they were processed; `Cleared` drops every verdict at once. */
  datatype Entry = Answered(host: string, started: real, answer: Answer) | Cleared

  /** `Ready` is a request at the head of its loop; it never waits there. */
  datatype Phase =
    | Ready
    | Waiting(lookup: nat)
    | Resolving(started: real, shared: Option<nat>)
    | Passed(at: real)
    | Refused
    | Aborted

  /** One request's check. `arrived` is how many answers had been processed when it came;
      `waits` and `starts` count the shared lookups it waited on and the lookups it began. */
  datatype Task = Task(host: string, allowUnresolved: bool, arrived: nat, phase: Phase,
                       waited: bool, waits: nat, starts: nat)

  /** A shared future: who resolves it, its result, and which answer that was. */
  datatype Lookup = Lookup(host: string, owner: nat, result: Option<Answer>, index: nat)

  datatype Run = Run(ttl: real, maxHosts: nat, now: real, verdicts: Verdicts, lookups: map<string, nat>,
                     futures: seq<Lookup>, tasks: seq<Task>, log: seq<Entry>)

  /** `inTime` says that the deadline check at the start passed. A pinned answer is
      `resolve_public_url_in_run` ending; an unscanned refusal is a URL too long to read. */
  datatype Step =
    | Tick(later: real)
    | Arrive(host: string, allowUnresolved: bool, inTime: bool)
    | Answers(task: nat, answer: Answer)
    | Wake(task: nat)
    | GiveUp(task: nat)
    | PinnedAnswer(host: string, started: real, answer: Answer)
    | UnscannedRefusal

  ghost predicate Enabled(s: Run, step: Step) {
    match step
    case Tick(later) => later >= s.now
    case Arrive(_, _, _) => true
    case Answers(i, _) => i < |s.tasks| && s.tasks[i].phase.Resolving?
    case Wake(i) => i < |s.tasks| && Awake(s.futures, s.tasks[i])
    case GiveUp(i) => i < |s.tasks| && s.tasks[i].phase.Waiting?
    case PinnedAnswer(_, started, _) => started <= s.now
    case UnscannedRefusal => true
  }

  predicate Awake(futures: seq<Lookup>, task: Task) {
    task.phase.Waiting? && task.phase.lookup < |futures| && futures[task.phase.lookup].result.Some?
  }

  /** The head of the loop: use a fresh verdict, wait for the shared lookup, or resolve. */
  function Dispatch(s: Run, i: nat): Run
    requires i < |s.tasks|
  {
    var task := s.tasks[i];
    var checked := s.(verdicts := AfterCheck(s.verdicts, task.host, s.now));
    if Fresh(s.verdicts, task.host, s.now) then
      checked.(tasks := s.tasks[i := task.(phase := Passed(s.now))])
    else if task.host in s.lookups && !task.waited then
      checked.(tasks := s.tasks[i := task.(phase := Waiting(s.lookups[task.host]), waits := task.waits + 1)])
    else if task.host !in s.lookups then
      checked.(lookups := s.lookups[task.host := |s.futures|],
               futures := s.futures + [Lookup(task.host, i, None, 0)],
               tasks := s.tasks[i := task.(phase := Resolving(s.now, Some(|s.futures|)), starts := task.starts + 1)])
    else
      checked.(tasks := s.tasks[i := task.(phase := Resolving(s.now, None), starts := task.starts + 1)])
  }

  /** What an answer does to the remembered verdicts. */
  function Remember(s: Run, host: string, started: real, answer: Answer): Run
    requires s.maxHosts > 0
  {
    if answer.Lost? then s
    else
      s.(verdicts := if answer.Public? then Recorded(s.verdicts, host, started + s.ttl, s.maxHosts)
                     else Without(s.verdicts, host),
         log := s.log + [Answered(host, started, answer)])
  }

  /** How a request ends on its own answer, or on the answer it waited for. */
  function Ending(now: real, allowUnresolved: bool, answer: Answer): Phase {
    if answer.Public? || (answer.Unresolved? && allowUnresolved) then Passed(now)
    else if answer.Lost? then Aborted
    else Refused
  }

  /** A shared lookup ends: it leaves the table and its future gets its one result. */
  function Publish(s: Run, shared: Option<nat>, host: string, answer: Answer, index: nat): Run {
    if shared.None? || shared.value >= |s.futures| then s
    else s.(lookups := s.lookups - {host},
            futures := s.futures[shared.value := s.futures[shared.value].(result := Some(answer), index := index)])
  }

  function SetPhase(s: Run, i: nat, phase: Phase): Run
    requires i < |s.tasks|
  {
    s.(tasks := s.tasks[i := s.tasks[i].(phase := phase)])
  }

  function Next(s: Run, step: Step): Run
    requires Enabled(s, step) && s.maxHosts > 0
  {
    match step
    case Tick(later) => s.(now := later)
    case Arrive(host, allow, inTime) =>
      var task := Task(host, allow, |s.log|, if inTime then Ready else Aborted, false, 0, 0);
      var arrived := s.(tasks := s.tasks + [task]);
      if inTime then Dispatch(arrived, |s.tasks|) else arrived
    case Answers(i, answer) =>
      var task := s.tasks[i];
      var known := Remember(s, task.host, task.phase.started, answer);
      SetPhase(Publish(known, task.phase.shared, task.host, answer, |s.log|), i,
               Ending(s.now, task.allowUnresolved, answer))
    case Wake(i) =>
      var answer := s.futures[s.tasks[i].phase.lookup].result.value;
      var woken := s.(tasks := s.tasks[i := s.tasks[i].(waited := true, phase := Ready)]);
      if answer.Lost? then Dispatch(woken, i)
      else SetPhase(woken, i, Ending(s.now, s.tasks[i].allowUnresolved, answer))
    case GiveUp(i) => SetPhase(s, i, Aborted)
    case PinnedAnswer(host, started, answer) => Remember(s, host, started, answer)
    case UnscannedRefusal => s.(verdicts := [], log := s.log + [Cleared])
  }

  // ---- The invariant -----------------------------------------------------------

  /** An answer that takes a host's verdict away. */
  predicate Drops(e: Entry, host: string) {
    e.Cleared? || (e.host == host && !e.answer.Public?)
  }

  predicate IsAnswer(log: seq<Entry>, j: nat, host: string, answer: Answer) {
    j < |log| && log[j].Answered? && log[j].host == host && log[j].answer == answer
  }

  /** The verdict was recorded by log[j], a public answer, and nothing has refused the host since. */
  ghost predicate RecordedBy(log: seq<Entry>, ttl: real, v: Verdict, j: nat) {
    && IsAnswer(log, j, v.host, Public) && v.expires == log[j].started + ttl
    && forall k :: j < k < |log| ==> !Drops(log[k], v.host)
  }

  ghost predicate VerdictsBacked(verdicts: Verdicts, log: seq<Entry>, ttl: real, maxHosts: nat) {
    && Distinct(verdicts) && |verdicts| <= maxHosts
    && forall v :: v in verdicts ==> exists j: nat :: RecordedBy(log, ttl, v, j)
  }

  ghost predicate Owns(task: Task, f: nat, host: string) {
    task.phase.Resolving? && task.phase.shared == Some(f) && task.host == host
  }

  /** The table names exactly the unresolved futures, each owned by the one task resolving it. */
  ghost predicate SingleFlight(lookups: map<string, nat>, futures: seq<Lookup>, tasks: seq<Task>) {
    && (forall h :: h in lookups ==>
          lookups[h] < |futures| && futures[lookups[h]].host == h && futures[lookups[h]].result.None?)
    && (forall f :: 0 <= f < |futures| && futures[f].result.None? ==>
          && futures[f].host in lookups && lookups[futures[f].host] == f
          && futures[f].owner < |tasks| && Owns(tasks[futures[f].owner], f, futures[f].host))
    && (forall i :: 0 <= i < |tasks| ==> OwnsItsLookup(lookups, futures, tasks[i], i))
  }

  ghost predicate OwnsItsLookup(lookups: map<string, nat>, futures: seq<Lookup>, task: Task, i: nat) {
    task.phase.Resolving? && task.phase.shared.Some? ==>
      && task.host in lookups && lookups[task.host] == task.phase.shared.value
      && task.phase.shared.value < |futures| && futures[task.phase.shared.value].owner == i
  }

  ghost predicate ResultsLogged(futures: seq<Lookup>, log: seq<Entry>) {
    forall f :: 0 <= f < |futures| && futures[f].result.Some? && !futures[f].result.value.Lost? ==>
                  IsAnswer(log, futures[f].index, futures[f].host, futures[f].result.value)
  }

  /** log[j] lets a request pass: a public answer whose lookup began within a lifetime of the
      pass, or an acceptable answer processed after the request came. */
  ghost predicate Justifies(log: seq<Entry>, ttl: real, task: Task, at: real, j: nat) {
    && j < |log| && log[j].Answered? && log[j].host == task.host
    && ((log[j].answer.Public? && at < log[j].started + ttl)
        || (task.arrived <= j && (log[j].answer.Public? || (log[j].answer.Unresolved? && task.allowUnresolved))))
  }

  ghost predicate TaskOk(futures: seq<Lookup>, log: seq<Entry>, ttl: real, task: Task) {
    && task.arrived <= |log|
    && task.waits <= 1 && task.starts <= 1 && (task.waited ==> task.waits == 1)
    && (task.phase.Ready? ==> task.starts == 0 && (task.waits == 1 ==> task.waited))
    && (task.phase.Waiting? ==>
          task.starts == 0 && task.waits == 1 && !task.waited && WaitsOn(futures, task, task.phase.lookup))
    && (task.phase.Passed? ==> exists j: nat :: Justifies(log, ttl, task, task.phase.at, j))
    && (task.phase.Refused? ==> exists j: nat :: Condemns(log, task, j))
  }

  /** log[j] refuses a request: its host is not public, or did not resolve and the request does not
      allow that; and it was answered after the request came. */
  predicate Condemns(log: seq<Entry>, task: Task, j: nat) {
    && task.arrived <= j < |log| && log[j].Answered? && log[j].host == task.host
    && (log[j].answer.NonPublic? || (log[j].answer.Unresolved? && !task.allowUnresolved))
  }

  ghost predicate WaitsOn(futures: seq<Lookup>, task: Task, f: nat) {
    && f < |futures| && futures[f].host == task.host
    && (futures[f].result.Some? && !futures[f].result.value.Lost? ==> task.arrived <= futures[f].index)
  }

  ghost predicate Inv(s: Run) {
    && s.maxHosts > 0
    && VerdictsBacked(s.verdicts, s.log, s.ttl, s.maxHosts)
    && SingleFlight(s.lookups, s.futures, s.tasks)
    && ResultsLogged(s.futures, s.log)
    && forall i :: 0 <= i < |s.tasks| ==> TaskOk(s.futures, s.log, s.ttl, s.tasks[i])
  }

  // ---- Each step keeps it -------------------------------------------------------

  lemma PassStays(log: seq<Entry>, log': seq<Entry>, ttl: real, futures: seq<Lookup>, task: Task)
    requires TaskOk(futures, log, ttl, task) && log <= log'
    ensures TaskOk(futures, log', ttl, task)
  {
    if task.phase.Passed? {
      var j: nat :| Justifies(log, ttl, task, task.phase.at, j);
      assert Justifies(log', ttl, task, task.phase.at, j);
    }
    if task.phase.Refused? {
      var j: nat :| Condemns(log, task, j);
      assert Condemns(log', task, j);
    }
  }

  lemma StaysRecorded(log: seq<Entry>, e: Entry, ttl: real, v: Verdict, j: nat)
    requires RecordedBy(log, ttl, v, j) && !Drops(e, v.host)
    ensures RecordedBy(log + [e], ttl, v, j)
  {
  }

  lemma RecordedLast(log: seq<Entry>, ttl: real, host: string, started: real)
    ensures RecordedBy(log + [Answered(host, started, Public)], ttl, Verdict(host, started + ttl), |log|)
  {
  }

  lemma RememberKeepsVerdicts(s: Run, host: string, started: real, answer: Answer)
    requires s.maxHosts > 0 && VerdictsBacked(s.verdicts, s.log, s.ttl, s.maxHosts)
    ensures var t := Remember(s, host, started, answer);
            VerdictsBacked(t.verdicts, t.log, t.ttl, t.maxHosts)
  {
    var t := Remember(s, host, started, answer);
    if !answer.Lost? {
      WithoutKeepsOthers(s.verdicts, host);
      WithoutIsDistinct(s.verdicts, host);
      RecordedMeaning(s.verdicts, host, started + s.ttl, s.maxHosts);
      forall v | v in t.verdicts ensures exists j: nat :: RecordedBy(t.log, t.ttl, v, j) {
        if v.host == host {
          RecordedLast(s.log, s.ttl, host, started);
        } else {
          assert v in s.verdicts;
          var j: nat :| RecordedBy(s.log, s.ttl, v, j);
          StaysRecorded(s.log, Answered(host, started, answer), s.ttl, v, j);
        }
      }
    }
  }

  /** A longer log keeps every task and every result right. */
  lemma RememberKeepsInv(s: Run, host: string, started: real, answer: Answer)
    requires Inv(s)
    ensures Inv(Remember(s, host, started, answer))
  {
    var t := Remember(s, host, started, answer);
    RememberKeepsVerdicts(s, host, started, answer);
    forall i | 0 <= i < |t.tasks| ensures TaskOk(t.futures, t.log, t.ttl, t.tasks[i]) {
      PassStays(s.log, t.log, s.ttl, s.futures, s.tasks[i]);
    }
  }

  /** A fresh verdict is a public answer whose lookup began less than one lifetime ago, and
      nothing processed since has refused the host. */
  lemma FreshIsRecent(s: Run, host: string) returns (j: nat)
    requires VerdictsBacked(s.verdicts, s.log, s.ttl, s.maxHosts) && Fresh(s.verdicts, host, s.now)
    ensures IsAnswer(s.log, j, host, Public) && s.now < s.log[j].started + s.ttl
    ensures forall k :: j < k < |s.log| ==> !Drops(s.log[k], host)
  {
    var v :| v in s.verdicts && v.host == host && s.now < v.expires;
    j :| RecordedBy(s.log, s.ttl, v, j);
  }

  /** Only one task changes, and not to or from resolving a shared lookup. */
  lemma OneTaskChanged(s: Run, t: Run, i: nat)
    requires Inv(s) && i < |s.tasks| == |t.tasks|
    requires t == s.(tasks := s.tasks[i := t.tasks[i]], now := t.now, verdicts := t.verdicts)
    requires VerdictsBacked(t.verdicts, t.log, t.ttl, t.maxHosts)
    requires TaskOk(s.futures, s.log, s.ttl, t.tasks[i])
    requires !(s.tasks[i].phase.Resolving? && s.tasks[i].phase.shared.Some?)
    requires !(t.tasks[i].phase.Resolving? && t.tasks[i].phase.shared.Some?)
    ensures Inv(t)
  {
    forall k | 0 <= k < |t.tasks|
      ensures TaskOk(t.futures, t.log, t.ttl, t.tasks[k]) && OwnsItsLookup(t.lookups, t.futures, t.tasks[k], k)
    {
      assert k != i ==> t.tasks[k] == s.tasks[k];
    }
  }

  lemma CheckKeepsVerdicts(s: Run, host: string)
    requires VerdictsBacked(s.verdicts, s.log, s.ttl, s.maxHosts)
    ensures VerdictsBacked(AfterCheck(s.verdicts, host, s.now), s.log, s.ttl, s.maxHosts)
  {
    WithoutKeepsOthers(s.verdicts, host);
    WithoutIsDistinct(s.verdicts, host);
  }

  /** Beginning a shared lookup puts it in the table, unresolved and owned. */
  lemma BeginKeepsInv(s: Run, i: nat)
    requires Inv(s) && i < |s.tasks| && s.tasks[i].phase.Ready?
    requires !Fresh(s.verdicts, s.tasks[i].host, s.now) && s.tasks[i].host !in s.lookups
    ensures Inv(Dispatch(s, i))
  {
    var t := Dispatch(s, i);
    var task := s.tasks[i];
    CheckKeepsVerdicts(s, task.host);
    assert TaskOk(s.futures, s.log, s.ttl, task);
    assert SingleFlight(t.lookups, t.futures, t.tasks) by {
      forall f | 0 <= f < |t.futures| && t.futures[f].result.None?
        ensures t.futures[f].host in t.lookups && t.lookups[t.futures[f].host] == f
        ensures t.futures[f].owner < |t.tasks| && Owns(t.tasks[t.futures[f].owner], f, t.futures[f].host)
      {
        if f < |s.futures| {
          assert t.futures[f] == s.futures[f];
          assert s.futures[f].owner != i;
        }
      }
      forall k | 0 <= k < |t.tasks| ensures OwnsItsLookup(t.lookups, t.futures, t.tasks[k], k) {
        assert OwnsItsLookup(s.lookups, s.futures, s.tasks[k], k);
      }
    }
    forall k | 0 <= k < |t.tasks| ensures TaskOk(t.futures, t.log, t.ttl, t.tasks[k]) {
      assert TaskOk(s.futures, s.log, s.ttl, s.tasks[k]);
    }
  }

  lemma DispatchKeepsInv(s: Run, i: nat)
    requires Inv(s) && i < |s.tasks| && s.tasks[i].phase.Ready?
    ensures Inv(Dispatch(s, i))
  {
    var task, t := s.tasks[i], Dispatch(s, i);
    CheckKeepsVerdicts(s, task.host);
    assert TaskOk(s.futures, s.log, s.ttl, task);
    if Fresh(s.verdicts, task.host, s.now) {
      var j := FreshIsRecent(s, task.host);
      assert Justifies(s.log, s.ttl, t.tasks[i], s.now, j);
      OneTaskChanged(s, t, i);
    } else if task.host !in s.lookups {
      BeginKeepsInv(s, i);
    } else {
      OneTaskChanged(s, t, i);
    }
  }

  ghost function Ended(s: Run, i: nat, answer: Answer, index: nat, phase: Phase): Run
    requires i < |s.tasks| && s.tasks[i].phase.Resolving?
  {
    SetPhase(Publish(s, s.tasks[i].phase.shared, s.tasks[i].host, answer, index), i, phase)
  }

  lemma PublishKeepsFlight(s: Run, i: nat, answer: Answer, index: nat, phase: Phase)
    requires SingleFlight(s.lookups, s.futures, s.tasks) && i < |s.tasks| && Shares(s.tasks[i])
    requires !phase.Resolving?
    ensures var t := Ended(s, i, answer, index, phase); SingleFlight(t.lookups, t.futures, t.tasks)
  {
    var t := Ended(s, i, answer, index, phase);
    assert OwnsItsLookup(s.lookups, s.futures, s.tasks[i], i);
    forall k | 0 <= k < |t.tasks| ensures OwnsItsLookup(t.lookups, t.futures, t.tasks[k], k) {
      assert OwnsItsLookup(s.lookups, s.futures, s.tasks[k], k);
    }
  }

  /** A lookup ends: its table entry goes, its future is resolved, and its owner moves on. */
  lemma PublishKeepsInv(s: Run, i: nat, answer: Answer, index: nat, phase: Phase)
    requires Inv(s) && i < |s.tasks| && s.tasks[i].phase.Resolving?
    requires !phase.Resolving? && !phase.Waiting?
    requires !answer.Lost? ==> IsAnswer(s.log, index, s.tasks[i].host, answer)
    requires TaskOk(s.futures, s.log, s.ttl, s.tasks[i].(phase := phase))
    requires forall k :: 0 <= k < |s.tasks| && s.tasks[k].phase.Waiting? ==>
                           s.tasks[k].arrived <= index
    ensures Inv(Ended(s, i, answer, index, phase))
  {
    var task, t := s.tasks[i], Ended(s, i, answer, index, phase);
    assert OwnsItsLookup(s.lookups, s.futures, task, i);
    if task.phase.shared.None? {
      OneTaskChanged(s, t, i);
    } else {
      PublishKeepsFlight(s, i, answer, index, phase);
      forall k | 0 <= k < |t.tasks| ensures TaskOk(t.futures, t.log, t.ttl, t.tasks[k]) {
        assert TaskOk(s.futures, s.log, s.ttl, s.tasks[k]);
      }
    }
  }

  lemma AnswerKeepsInv(s: Run, i: nat, answer: Answer)
    requires Inv(s) && Enabled(s, Answers(i, answer))
    ensures Inv(Next(s, Answers(i, answer)))
  {
    var task := s.tasks[i];
    var known := Remember(s, task.host, task.phase.started, answer);
    RememberKeepsInv(s, task.host, task.phase.started, answer);
    var phase := Ending(s.now, task.allowUnresolved, answer);
    assert TaskOk(known.futures, known.log, known.ttl, task);
    if phase.Passed? {
      assert Justifies(known.log, s.ttl, task.(phase := phase), s.now, |s.log|);
    } else if phase.Refused? {
      assert Condemns(known.log, task.(phase := phase), |s.log|);
    }
    forall k | 0 <= k < |s.tasks| && s.tasks[k].phase.Waiting? ensures s.tasks[k].arrived <= |s.log| {
      assert TaskOk(s.futures, s.log, s.ttl, s.tasks[k]);
    }
    PublishKeepsInv(known, i, answer, |s.log|, phase);
  }

  lemma WakeKeepsInv(s: Run, i: nat)
    requires Inv(s) && Enabled(s, Wake(i))
    ensures Inv(Next(s, Wake(i)))
  {
    var task := s.tasks[i];
    var f := task.phase.lookup;
    var answer := s.futures[f].result.value;
    assert TaskOk(s.futures, s.log, s.ttl, task);
    var woken := s.(tasks := s.tasks[i := task.(waited := true, phase := Ready)]);
    if answer.Lost? {
      OneTaskChanged(s, woken, i);
      DispatchKeepsInv(woken, i);
    } else {
      var t := Next(s, Wake(i));
      assert t.tasks == s.tasks[i := t.tasks[i]];
      if t.tasks[i].phase.Passed? {
        assert Justifies(s.log, s.ttl, t.tasks[i], s.now, s.futures[f].index);
      } else if t.tasks[i].phase.Refused? {
        assert Condemns(s.log, t.tasks[i], s.futures[f].index);
      }
      OneTaskChanged(s, t, i);
    }
  }

  lemma ArriveKeepsInv(s: Run, host: string, allow: bool, inTime: bool)
    requires Inv(s)
    ensures Inv(Next(s, Arrive(host, allow, inTime)))
  {
    var task := Task(host, allow, |s.log|, if inTime then Ready else Aborted, false, 0, 0);
    var arrived := s.(tasks := s.tasks + [task]);
    forall k | 0 <= k < |arrived.tasks|
      ensures TaskOk(arrived.futures, arrived.log, arrived.ttl, arrived.tasks[k])
              && OwnsItsLookup(arrived.lookups, arrived.futures, arrived.tasks[k], k)
    {
      assert k < |s.tasks| ==> arrived.tasks[k] == s.tasks[k];
    }
    if inTime {
      DispatchKeepsInv(arrived, |s.tasks|);
    }
  }

  lemma NextKeepsInv(s: Run, step: Step)
    requires Inv(s) && Enabled(s, step)
    ensures Inv(Next(s, step))
  {
    match step
    case Tick(later) =>
    case Arrive(host, allow, inTime) => ArriveKeepsInv(s, host, allow, inTime);
    case Answers(i, answer) => AnswerKeepsInv(s, i, answer);
    case Wake(i) => WakeKeepsInv(s, i);
    case GiveUp(i) =>
      assert TaskOk(s.futures, s.log, s.ttl, s.tasks[i]);
      OneTaskChanged(s, Next(s, step), i);
    case PinnedAnswer(host, started, answer) => RememberKeepsInv(s, host, started, answer);
    case UnscannedRefusal =>
      var t := Next(s, step);
      forall i | 0 <= i < |t.tasks| ensures TaskOk(t.futures, t.log, t.ttl, t.tasks[i]) {
        PassStays(s.log, t.log, s.ttl, s.futures, s.tasks[i]);
      }
  }

  // ---- Whole runs ------------------------------------------------------------

  ghost predicate ValidRun(s: Run, steps: seq<Step>)
    decreases |steps|
  {
    s.maxHosts > 0
    && (steps == [] || (Enabled(s, steps[0]) && ValidRun(Next(s, steps[0]), steps[1..])))
  }

  ghost function RunAll(s: Run, steps: seq<Step>): Run
    requires ValidRun(s, steps)
    decreases |steps|
  {
    if steps == [] then s else RunAll(Next(s, steps[0]), steps[1..])
  }

  lemma NextKeepsSettings(s: Run, step: Step)
    requires Enabled(s, step) && s.maxHosts > 0
    ensures Next(s, step).ttl == s.ttl && Next(s, step).maxHosts == s.maxHosts && Next(s, step).now >= s.now
  {
  }

  lemma {:induction false} RunKeepsInv(s: Run, steps: seq<Step>)
    requires Inv(s) && ValidRun(s, steps)
    ensures Inv(RunAll(s, steps))
    ensures RunAll(s, steps).ttl == s.ttl && RunAll(s, steps).maxHosts == s.maxHosts && RunAll(s, steps).now >= s.now
    decreases |steps|
  {
    if steps != [] {
      NextKeepsInv(s, steps[0]);
      NextKeepsSettings(s, steps[0]);
      RunKeepsInv(Next(s, steps[0]), steps[1..]);
    }
  }

  ghost predicate Initial(s: Run) {
    s.maxHosts > 0 && s.verdicts == [] && s.lookups == map[] && s.futures == [] && s.tasks == [] && s.log == []
  }

  /** A host is in the table exactly while one request is resolving it for the others, and only
      one ever is. */
  lemma OneSharedLookupPerHost(s: Run, steps: seq<Step>, host: string)
    requires Initial(s) && ValidRun(s, steps)
    ensures var t := RunAll(s, steps);
            && (host in t.lookups <==>
                exists i :: 0 <= i < |t.tasks| && t.tasks[i].host == host && Shares(t.tasks[i]))
            && (forall i, k | 0 <= i < |t.tasks| && 0 <= k < |t.tasks| && i != k ::
                  Shares(t.tasks[i]) && Shares(t.tasks[k]) ==> t.tasks[i].host != t.tasks[k].host)
  {
    RunKeepsInv(s, steps);
    var t := RunAll(s, steps);
    forall i | 0 <= i < |t.tasks| ensures OwnsItsLookup(t.lookups, t.futures, t.tasks[i], i) {
    }
    if host in t.lookups {
      assert Shares(t.tasks[t.futures[t.lookups[host]].owner]);
    }
  }

  predicate Shares(task: Task) {
    task.phase.Resolving? && task.phase.shared.Some?
  }

  /** Every request that passed had an answer to pass on, every one that was refused had an answer
      that refuses it, and each waited on and started at most one lookup; one that waits either
      can wake or waits on a lookup still in flight. */
  lemma ChecksAreJustified(s: Run, steps: seq<Step>, i: nat)
    requires Initial(s) && ValidRun(s, steps) && i < |RunAll(s, steps).tasks|
    ensures var t := RunAll(s, steps);
            var task := t.tasks[i];
            && task.waits <= 1 && task.starts <= 1
            && (task.phase.Passed? ==> exists j: nat :: Justifies(t.log, t.ttl, task, task.phase.at, j))
            && (task.phase.Refused? ==> exists j: nat :: Condemns(t.log, task, j))
            && (task.phase.Waiting? ==>
                  Awake(t.futures, task) || (task.host in t.lookups && t.lookups[task.host] == task.phase.lookup))
  {
    RunKeepsInv(s, steps);
    var t := RunAll(s, steps);
    assert TaskOk(t.futures, t.log, t.ttl, t.tasks[i]);
  }

  /** In every reachable state a fresh verdict stands for a recent public answer that nothing
      has refused since. */
  lemma FreshnessIsSound(s: Run, steps: seq<Step>, host: string) returns (j: nat)
    requires Initial(s) && ValidRun(s, steps)
    requires Fresh(RunAll(s, steps).verdicts, host, RunAll(s, steps).now)
    ensures RecentAndUnrefused(RunAll(s, steps), host, j)
  {
    RunKeepsInv(s, steps);
    j := FreshIsRecent(RunAll(s, steps), host);
  }

  ghost predicate RecentAndUnrefused(s: Run, host: string, j: nat) {
    && IsAnswer(s.log, j, host, Public) && s.now < s.log[j].started + s.ttl
    && forall k :: j < k < |s.log| ==> !Drops(s.log[k], host)
  }

  /** A shared future is resolved once: later steps never change a result. */
  lemma {:induction false} ResultsAreFinal(s: Run, steps: seq<Step>, f: nat)
    requires Inv(s) && ValidRun(s, steps) && f < |s.futures| && s.futures[f].result.Some?
    ensures f < |RunAll(s, steps).futures| && RunAll(s, steps).futures[f] == s.futures[f]
    decreases |steps|
  {
    if steps != [] {
      NextKeepsInv(s, steps[0]);
      if steps[0].Answers? {
        var i := steps[0].task;
        assert OwnsItsLookup(s.lookups, s.futures, s.tasks[i], i);
      }
      assert Next(s, steps[0]).futures[f] == s.futures[f];
      ResultsAreFinal(Next(s, steps[0]), steps[1..], f);
    }
  }

  // ---- How a request ends ------------------------------------------------------------

  /** The answer that a step brings to request `i`: its own lookup's, or the one it waited for. */
  function AnswerFor(s: Run, step: Step, i: nat): Option<Answer>
    requires Enabled(s, step)
  {
    match step
    case Answers(k, answer) => if k == i then Some(answer) else None
    case Wake(k) => if k == i then s.futures[s.tasks[k].phase.lookup].result else None
    case _ => None
  }

  /** A request ends on the answer it gets: it passes if and only if its host is public, or did not
      resolve and the request allows that, and is refused on any other answer. When its own lookup
      is lost it is aborted; when the one it waited for is, it goes on by itself. */
  lemma EndsOnItsAnswer(s: Run, step: Step, i: nat)
    requires Inv(s) && Enabled(s, step) && i < |s.tasks|
    ensures var was, now, answer := s.tasks[i].phase, Next(s, step).tasks[i].phase, AnswerFor(s, step, i);
            && (answer == Some(Public) ==> now == Passed(s.now))
            && (answer == Some(NonPublic) ==> now == Refused)
            && (answer == Some(Unresolved) ==>
                  now == if s.tasks[i].allowUnresolved then Passed(s.now) else Refused)
            && (answer == Some(Lost) && step.Answers? ==> now == Aborted)
            && (answer == Some(Lost) && step.Wake? ==>
                  if Fresh(s.verdicts, s.tasks[i].host, s.now) then now == Passed(s.now)
                  else now.Resolving? && now.started == s.now)
            && (answer == None ==> now == if step == GiveUp(i) then Aborted else was)
  {
    assert TaskOk(s.futures, s.log, s.ttl, s.tasks[i]);
  }

  /** A new request passes at once on a fresh verdict, waits if its host is being looked up, and
      otherwise looks it up for all that come meanwhile. */
  lemma BeginsAtTheVerdict(s: Run, host: string, allow: bool, inTime: bool)
    requires Inv(s)
    ensures var t := Next(s, Arrive(host, allow, inTime));
            var phase := t.tasks[|s.tasks|].phase;
            && |t.tasks| == |s.tasks| + 1 && t.tasks[..|s.tasks|] == s.tasks
            && (!inTime ==> phase == Aborted)
            && (inTime && Fresh(s.verdicts, host, s.now) ==> phase == Passed(s.now) && t.lookups == s.lookups)
            && (inTime && !Fresh(s.verdicts, host, s.now) ==>
                  if host in s.lookups then phase == Waiting(s.lookups[host]) && t.lookups == s.lookups
                  else phase == Resolving(s.now, Some(|s.futures|)) && t.lookups == s.lookups[host := |s.futures|])
  {
  }

  /** A step after which request `i` is aborted: it came past the deadline, gave up its wait, or
      its own lookup brought no answer. */
  predicate AbortsIt(s: Run, step: Step, i: nat)
    requires Enabled(s, step)
  {
    || (step.Arrive? && i == |s.tasks| && !step.inTime)
    || step == GiveUp(i)
    || step == Answers(i, Lost)
  }

  ghost predicate AbortedIn(s: Run, steps: seq<Step>, i: nat)
    requires ValidRun(s, steps)
    decreases |steps|
  {
    steps != [] && (AbortsIt(s, steps[0], i) || AbortedIn(Next(s, steps[0]), steps[1..], i))
  }

  predicate IsAborted(s: Run, i: nat) {
    i < |s.tasks| && s.tasks[i].phase.Aborted?
  }

  lemma AbortedByStep(s: Run, step: Step, i: nat)
    requires Inv(s) && Enabled(s, step)
    ensures IsAborted(Next(s, step), i) <==> IsAborted(s, i) || AbortsIt(s, step, i)
  {
    if i < |s.tasks| {
      EndsOnItsAnswer(s, step, i);
    } else if step.Arrive? {
      BeginsAtTheVerdict(s, step.host, step.allowUnresolved, step.inTime);
    }
  }

  /** In every run a request is aborted if and only if one of these befell it. */
  lemma {:induction false} AbortedIffCutShort(s: Run, steps: seq<Step>, i: nat)
    requires Inv(s) && ValidRun(s, steps)
    ensures IsAborted(RunAll(s, steps), i) <==> IsAborted(s, i) || AbortedIn(s, steps, i)
    decreases |steps|
  {
    if steps != [] {
      NextKeepsInv(s, steps[0]);
      AbortedByStep(s, steps[0], i);
      AbortedIffCutShort(Next(s, steps[0]), steps[1..], i);
    }
  }

  // ---- What an answer leaves behind --------------------------------------------------

  /** The lookup whose answer a step processes: its host, when it began, and the answer. */
  function Processed(s: Run, step: Step): Option<(string, real, Answer)>
    requires Enabled(s, step)
  {
    match step
    case Answers(i, answer) => Some((s.tasks[i].host, s.tasks[i].phase.started, answer))
    case PinnedAnswer(host, started, answer) => Some((host, started, answer))
    case _ => None
  }

  /** A public answer is remembered for one lifetime from when its lookup began; any other answer
      leaves the host without a verdict; and no answer leaves it as it was. */
  lemma AnswersAreRemembered(s: Run, step: Step)
    requires Inv(s) && Enabled(s, step) && Processed(s, step).Some?
    ensures var (host, started, answer) := Processed(s, step).value;
            var t := Next(s, step);
            && (answer.Public? ==> forall at: real :: Fresh(t.verdicts, host, at) <==> at < started + s.ttl)
            && (answer.Unresolved? || answer.NonPublic? ==> forall at: real :: !Fresh(t.verdicts, host, at))
            && (answer.Lost? ==> t.verdicts == s.verdicts)
  {
    var (host, started, answer) := Processed(s, step).value;
    WithoutKeepsOthers(s.verdicts, host);
    RecordedMeaning(s.verdicts, host, started + s.ttl, s.maxHosts);
    assert Next(s, step).verdicts == Remember(s, host, started, answer).verdicts;
    if answer.Public? {
      assert Verdict(host, started + s.ttl) in Next(s, step).verdicts;
    }
  }
}
