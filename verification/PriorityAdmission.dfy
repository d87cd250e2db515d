/** Weighted admission from three FIFO queues (queue/priority.py), as the worker drives it: take
    the first non-empty queue of the selection order, then advance the turn. */
module PriorityAdmission {
  import opened Texts

  datatype Priority = High | Normal | Low

  const PRIORITIES: seq<Priority> := [High, Normal, Low]
  const CYCLE: seq<Priority> := [High, High, High, High, Normal, Normal, Low]

  /** The promised share of every seven admissions. */
  function Weight(p: Priority): nat {
    match p
    case High => 4
    case Normal => 2
    case Low => 1
  }

  function Others(p: Priority, all: seq<Priority>): seq<Priority> {
    if all == [] then [] else (if all[0] == p then [] else [all[0]]) + Others(p, all[1..])
  }

  datatype Queues<T> = Queues(high: seq<T>, normal: seq<T>, low: seq<T>) {
    function Of(p: Priority): seq<T> {
      match p
      case High => high
      case Normal => normal
      case Low => low
    }

    function Set(p: Priority, items: seq<T>): Queues<T> {
      match p
      case High => this.(high := items)
      case Normal => this.(normal := items)
      case Low => this.(low := items)
    }

    function Plus(more: Queues<T>): Queues<T> {
      Queues(high + more.high, normal + more.normal, low + more.low)
    }
  }

  // ---- One decision ------------------------------------------------------------------

  /** The turn's own priority when it has work, otherwise the highest that has. */
  function Choice<T>(cursor: nat, waiting: Queues<T>): (choice: Option<Priority>)
    requires cursor < 7
    ensures choice == None <==> waiting == Queues([], [], [])
    ensures choice.Some? ==> waiting.Of(choice.value) != []
  {
    if waiting.Of(CYCLE[cursor]) != [] then Some(CYCLE[cursor])
    else if waiting.high != [] then Some(High)
    else if waiting.normal != [] then Some(Normal)
    else if waiting.low != [] then Some(Low)
    else None
  }

  function Rank(p: Priority): nat {
    match p
    case High => 0
    case Normal => 1
    case Low => 2
  }

  /** The fair turn goes first when it has work (four turns for high, two for normal, one for low);
      when it has none, the highest priority that has. Something is chosen whenever anything waits. */
  lemma FairTurnThenHighest<T>(cursor: nat, waiting: Queues<T>, p: Priority)
    requires cursor < 7
    ensures var turn := if cursor < 4 then High else if cursor < 6 then Normal else Low;
            Choice(cursor, waiting) == Some(p) <==>
            && waiting.Of(p) != []
            && (p == turn || (waiting.Of(turn) == [] && forall q :: Rank(q) < Rank(p) ==> waiting.Of(q) == []))
  {
    assert waiting.Of(High) == waiting.high && waiting.Of(Normal) == waiting.normal && waiting.Of(Low) == waiting.low;
  }

  class WeightedPriorityPolicy {
    var cursor: nat

    ghost predicate Valid()
      reads this
    {
      cursor < 7
    }

    constructor ()
      ensures Valid() && cursor == 0
    {
      cursor := 0;
    }

    /** The turn's own priority, then the others from the highest down. */
    function SelectionOrder(): (order: seq<Priority>)
      requires Valid()
      reads this
      ensures |order| == 3 && order[0] == CYCLE[cursor]
      ensures order[1] == (if order[0] == High then Normal else High)
      ensures order[2] == (if order[0] == Low then Normal else Low)
    {
      OrderIs(CYCLE[cursor]);
      Order(CYCLE[cursor])
    }

    method Admitted()
      requires Valid()
      modifies this
      ensures Valid() && cursor == (old(cursor) + 1) % 7
    {
      cursor := (cursor + 1) % |CYCLE|;
    }

    /** The worker's admission: the first queue of the order that has a delivery. */
    method AdmitOne<T>(waiting: Queues<T>) returns (choice: Option<Priority>)
      requires Valid()
      modifies this
      ensures Valid() && choice == Choice(old(cursor), waiting)
      ensures cursor == if choice == None then old(cursor) else (old(cursor) + 1) % 7
    {
      var order := SelectionOrder();
      for k := 0 to |order|
        invariant cursor == old(cursor)
        invariant forall j :: 0 <= j < k ==> waiting.Of(order[j]) == []
      {
        if waiting.Of(order[k]) != [] {
          FirstOfOrder(cursor, waiting, k);
          Admitted();
          return Some(order[k]);
        }
      }
      NoneOfOrder(cursor, waiting);
      choice := None;
    }
  }

  function Order(preferred: Priority): seq<Priority> {
    [preferred] + Others(preferred, PRIORITIES)
  }

  lemma OrderIs(p: Priority)
    ensures Order(p) ==
            match p
            case High => [High, Normal, Low]
            case Normal => [Normal, High, Low]
            case Low => [Low, High, Normal]
  {
    assert PRIORITIES[1..] == [Normal, Low] && PRIORITIES[1..][1..] == [Low];
  }

  lemma FirstOfOrder<T>(cursor: nat, waiting: Queues<T>, k: nat)
    requires cursor < 7 && k < |Order(CYCLE[cursor])|
    requires waiting.Of(Order(CYCLE[cursor])[k]) != []
    requires forall j :: 0 <= j < k ==> waiting.Of(Order(CYCLE[cursor])[j]) == []
    ensures Choice(cursor, waiting) == Some(Order(CYCLE[cursor])[k])
  {
    var order := Order(CYCLE[cursor]);
    OrderIs(CYCLE[cursor]);
    assert k > 0 ==> waiting.Of(order[0]) == [];
    assert k > 1 ==> waiting.Of(order[1]) == [];
  }

  lemma NoneOfOrder<T>(cursor: nat, waiting: Queues<T>)
    requires cursor < 7
    requires forall j :: 0 <= j < |Order(CYCLE[cursor])| ==> waiting.Of(Order(CYCLE[cursor])[j]) == []
    ensures Choice(cursor, waiting) == None
  {
    var order := Order(CYCLE[cursor]);
    OrderIs(CYCLE[cursor]);
    assert waiting.Of(order[0]) == [] && waiting.Of(order[1]) == [] && waiting.Of(order[2]) == [];
  }

  // ---- Runs --------------------------------------------------------------------------

  datatype State<T> = State(cursor: nat, queues: Queues<T>)

  datatype Start<T> = Start(priority: Priority, item: T)

  /** Arrivals, and then one decision; an admitted delivery leaves the front of its queue. */
  function Decide<T>(s: State<T>, arrivals: Queues<T>): (State<T>, seq<Start<T>>)
    requires s.cursor < 7
  {
    var waiting := s.queues.Plus(arrivals);
    match Choice(s.cursor, waiting)
    case None => (State(s.cursor, waiting), [])
    case Some(p) =>
      var line := waiting.Of(p);
      (State((s.cursor + 1) % 7, waiting.Set(p, line[1..])), [Start(p, line[0])])
  }

  function Run<T>(s: State<T>, arrivals: seq<Queues<T>>): (r: (State<T>, seq<Start<T>>))
    requires s.cursor < 7
    ensures r.0.cursor < 7
    decreases |arrivals|
  {
    if arrivals == [] then (s, [])
    else
      var (s', started) := Decide(s, arrivals[0]);
      var (end, later) := Run(s', arrivals[1..]);
      (end, started + later)
  }

  /** The deliveries of one priority, in the order they started or arrived. */
  function StartsOf<T>(log: seq<Start<T>>, p: Priority): seq<T> {
    if log == [] then []
    else (if log[0].priority == p then [log[0].item] else []) + StartsOf(log[1..], p)
  }

  function ArrivalsOf<T>(arrivals: seq<Queues<T>>, p: Priority): seq<T> {
    if arrivals == [] then [] else arrivals[0].Of(p) + ArrivalsOf(arrivals[1..], p)
  }

  // ---- The run by numbers ------------------------------------------------------------

  /** How much waits, and whose turn it is: all that decides. */
  datatype Meter = Meter(cursor: nat, high: nat, normal: nat, low: nat) {
    function Of(p: Priority): nat {
      match p
      case High => high
      case Normal => normal
      case Low => low
    }

    function Plus<T>(arrivals: Queues<T>): Meter {
      Meter(cursor, high + |arrivals.high|, normal + |arrivals.normal|, low + |arrivals.low|)
    }

    /** The turn's own priority when it has work, otherwise the highest that has. */
    function Pick(): Option<Priority>
      requires cursor < 7
    {
      if Of(CYCLE[cursor]) > 0 then Some(CYCLE[cursor])
      else if high > 0 then Some(High)
      else if normal > 0 then Some(Normal)
      else if low > 0 then Some(Low)
      else None
    }

    function Take(): Meter
      requires cursor < 7
    {
      match Pick()
      case None => this
      case Some(High) => Meter((cursor + 1) % 7, high - 1, normal, low)
      case Some(Normal) => Meter((cursor + 1) % 7, high, normal - 1, low)
      case Some(Low) => Meter((cursor + 1) % 7, high, normal, low - 1)
    }
  }

  function MeterOf<T>(s: State<T>): Meter {
    Meter(s.cursor, |s.queues.high|, |s.queues.normal|, |s.queues.low|)
  }

  /** `p` has a delivery waiting at every decision of the run. */
  predicate Backlogged<T>(m: Meter, arrivals: seq<Queues<T>>, p: Priority)
    requires m.cursor < 7
    decreases |arrivals|
  {
    arrivals == [] ||
    (m.Plus(arrivals[0]).Of(p) > 0 && Backlogged(m.Plus(arrivals[0]).Take(), arrivals[1..], p))
  }

  ghost predicate AllBacklogged<T>(m: Meter, arrivals: seq<Queues<T>>)
    requires m.cursor < 7
    decreases |arrivals|
  {
    arrivals == [] ||
    ((forall p: Priority :: m.Plus(arrivals[0]).Of(p) > 0) && AllBacklogged(m.Plus(arrivals[0]).Take(), arrivals[1..]))
  }

  /** How many deliveries of `p` a run starts. */
  function Gains<T>(m: Meter, arrivals: seq<Queues<T>>, p: Priority): nat
    requires m.cursor < 7
    decreases |arrivals|
  {
    if arrivals == [] then 0
    else
      var waiting := m.Plus(arrivals[0]);
      (if waiting.Pick() == Some(p) then 1 else 0) + Gains(waiting.Take(), arrivals[1..], p)
  }

  lemma DecisionByNumbers<T>(s: State<T>, arrivals: Queues<T>, p: Priority)
    requires s.cursor < 7
    ensures var (s', started) := Decide(s, arrivals);
            && MeterOf(s') == MeterOf(s).Plus(arrivals).Take()
            && |StartsOf(started, p)| == if MeterOf(s).Plus(arrivals).Pick() == Some(p) then 1 else 0
  {
    var started := Decide(s, arrivals).1;
    if started != [] {
      assert started[1..] == [];
    }
  }

  lemma {:induction false} GainsAreStarts<T>(s: State<T>, arrivals: seq<Queues<T>>, p: Priority)
    requires s.cursor < 7
    ensures |StartsOf(Run(s, arrivals).1, p)| == Gains(MeterOf(s), arrivals, p)
    decreases |arrivals|
  {
    if arrivals != [] {
      var (s', started) := Decide(s, arrivals[0]);
      SharesAdd(s, arrivals, s', started, p);
      DecisionByNumbers(s, arrivals[0], p);
      GainsAreStarts(s', arrivals[1..], p);
    }
  }

  /** Which priority the turn of decision `i` prefers, counting decisions on from cursor 0. */
  function Turn(i: nat, p: Priority): nat {
    var c := i % 7;
    if (if c < 4 then High else if c < 6 then Normal else Low) == p then 1 else 0
  }

  lemma TurnIsCycle(cursor: nat, p: Priority)
    requires cursor < 7
    ensures Turn(cursor, p) == if CYCLE[cursor] == p then 1 else 0
  {
  }

  /** How many of the `n` turns from `i` on prefer `p`. */
  function Turns(i: nat, n: nat, p: Priority): nat
    decreases n
  {
    if n == 0 then 0 else Turn(i, p) + Turns(i + 1, n - 1, p)
  }

  // ---- Shares ------------------------------------------------------------------------

  lemma {:induction false} StartsAppend<T>(a: seq<Start<T>>, b: seq<Start<T>>, p: Priority)
    ensures StartsOf(a + b, p) == StartsOf(a, p) + StartsOf(b, p)
  {
    if a == [] {
      assert a + b == b;
    } else {
      assert (a + b)[1..] == a[1..] + b && (a + b)[0] == a[0];
      StartsAppend(a[1..], b, p);
      var first := if a[0].priority == p then [a[0].item] else [];
      Associates(first, StartsOf(a[1..], p), StartsOf(b, p));
    }
  }

  lemma OneStart<T>(start: Start<T>, p: Priority)
    ensures StartsOf([start], p) == if start.priority == p then [start.item] else []
  {
    assert [start][1..] == [];
  }

  lemma TakeFront<T>(line: seq<T>)
    requires line != []
    ensures [line[0]] + line[1..] == line
  {
  }

  lemma PlusOf<T>(a: Queues<T>, b: Queues<T>, p: Priority)
    ensures a.Plus(b).Of(p) == a.Of(p) + b.Of(p)
  {
  }

  lemma SetOf<T>(a: Queues<T>, q: Priority, items: seq<T>, p: Priority)
    ensures a.Set(q, items).Of(p) == if p == q then items else a.Of(p)
  {
  }

  lemma OneDecision<T>(s: State<T>, arrivals: Queues<T>, p: Priority)
    requires s.cursor < 7
    ensures var (s', started) := Decide(s, arrivals);
            StartsOf(started, p) + s'.queues.Of(p) == s.queues.Of(p) + arrivals.Of(p)
  {
    var waiting := s.queues.Plus(arrivals);
    PlusOf(s.queues, arrivals, p);
    match Choice(s.cursor, waiting)
    case None =>
      assert [] + waiting.Of(p) == waiting.Of(p);
    case Some(q) =>
      var line := waiting.Of(q);
      OneStart(Start(q, line[0]), p);
      SetOf(waiting, q, line[1..], p);
      TakeFront(line);
      assert p != q ==> [] + waiting.Of(p) == waiting.Of(p);
  }

  lemma {:induction false} TurnsSnoc(i: nat, n: nat, p: Priority)
    ensures Turns(i, n + 1, p) == Turns(i, n, p) + Turn(i + n, p)
    decreases n
  {
    if n > 0 {
      TurnsSnoc(i + 1, n - 1, p);
    }
  }

  lemma {:induction false} TurnsRepeat(i: nat, n: nat, p: Priority)
    ensures Turns(i + 7, n, p) == Turns(i, n, p)
    decreases n
  {
    if n > 0 {
      TurnRepeats(i, p);
      TurnsRepeat(i + 1, n - 1, p);
      assert i + 1 + 7 == i + 7 + 1;
    }
  }

  /** The cursor's wrap-around changes nothing. */
  lemma NextTurn(cursor: nat, n: nat, p: Priority)
    requires cursor < 7
    ensures Turns(cursor, n + 1, p) == (if CYCLE[cursor] == p then 1 else 0) + Turns((cursor + 1) % 7, n, p)
  {
    TurnIsCycle(cursor, p);
    TurnsRepeat(0, n, p);
  }

  lemma RunCons<T>(s: State<T>, arrivals: seq<Queues<T>>, s': State<T>, started: seq<Start<T>>)
    requires s.cursor < 7 && arrivals != [] && Decide(s, arrivals[0]) == (s', started)
    ensures s'.cursor < 7
    ensures Run(s, arrivals) == (Run(s', arrivals[1..]).0, started + Run(s', arrivals[1..]).1)
  {
  }

  lemma SharesAdd<T>(s: State<T>, arrivals: seq<Queues<T>>, s': State<T>, started: seq<Start<T>>, p: Priority)
    requires s.cursor < 7 && arrivals != [] && Decide(s, arrivals[0]) == (s', started)
    ensures s'.cursor < 7
    ensures StartsOf(Run(s, arrivals).1, p) == StartsOf(started, p) + StartsOf(Run(s', arrivals[1..]).1, p)
    ensures |StartsOf(Run(s, arrivals).1, p)| == |StartsOf(started, p)| + |StartsOf(Run(s', arrivals[1..]).1, p)|
  {
    RunCons(s, arrivals, s', started);
    StartsAppend(started, Run(s', arrivals[1..]).1, p);
  }

  /** A decision with work for `p` admits it if it is its turn, and moves the turn on. */
  lemma TurnTaken(m: Meter, p: Priority, n: nat)
    requires m.cursor < 7 && m.Of(p) > 0
    ensures var gain := if m.Pick() == Some(p) then 1 else 0;
            && gain + Turns(m.Take().cursor, n, p) >= Turns(m.cursor, n + 1, p)
            && (m.Of(CYCLE[m.cursor]) > 0 ==> gain + Turns(m.Take().cursor, n, p) == Turns(m.cursor, n + 1, p))
  {
    NextTurn(m.cursor, n, p);
  }

  lemma {:induction false} AtLeastItsTurns<T>(m: Meter, arrivals: seq<Queues<T>>, p: Priority)
    requires m.cursor < 7 && Backlogged(m, arrivals, p)
    ensures Gains(m, arrivals, p) >= Turns(m.cursor, |arrivals|, p)
    decreases |arrivals|
  {
    if arrivals != [] {
      var waiting, later := m.Plus(arrivals[0]), arrivals[1..];
      TurnTaken(waiting, p, |later|);
      AtLeastItsTurns(waiting.Take(), later, p);
    }
  }

  lemma {:induction false} ExactlyItsTurns<T>(m: Meter, arrivals: seq<Queues<T>>, p: Priority)
    requires m.cursor < 7 && AllBacklogged(m, arrivals)
    ensures Gains(m, arrivals, p) == Turns(m.cursor, |arrivals|, p)
    decreases |arrivals|
  {
    if arrivals != [] {
      var waiting, later := m.Plus(arrivals[0]), arrivals[1..];
      assert waiting.Of(p) > 0 && waiting.Of(CYCLE[waiting.cursor]) > 0;
      TurnTaken(waiting, p, |later|);
      ExactlyItsTurns(waiting.Take(), later, p);
    }
  }

  lemma WholeCycle(n: nat, p: Priority)
    requires n == 7
    ensures Turns(0, n, p) == Weight(p)
  {
    assert Turns(4, n - 4, p) == Turn(4, p) + Turn(5, p) + Turns(6, n - 6, p);
    assert Turns(2, n - 2, p) == Turn(2, p) + Turn(3, p) + Turns(4, n - 4, p);
  }

  lemma Shift(i: nat, n: nat, p: Priority)
    requires n == 7
    ensures Turns(i + 1, n, p) == Turns(i, n, p)
  {
    TurnsSnoc(i, n, p);
    TurnRepeats(i, p);
    assert Turns(i, n + 1, p) == Turn(i, p) + Turns(i + 1, n, p);
  }

  lemma TurnRepeats(i: nat, p: Priority)
    ensures Turn(i + 7, p) == Turn(i, p)
  {
  }

  /** Wherever the cursor stands, seven turns are one whole cycle. */
  lemma {:induction false} SevenTurns(i: nat, n: nat, p: Priority)
    requires n == 7
    ensures Turns(i, n, p) == Weight(p)
    decreases i
  {
    if i == 0 {
      WholeCycle(n, p);
    } else {
      SevenTurns(i - 1, n, p);
      Shift(i - 1, n, p);
    }
  }

  /** A priority that stays non-empty gets at least its weight of any seven consecutive
      decisions, and exactly that when all three stay backlogged. */
  lemma SharesOfSeven<T>(s: State<T>, arrivals: seq<Queues<T>>, p: Priority)
    requires s.cursor < 7 && |arrivals| == 7 && Backlogged(MeterOf(s), arrivals, p)
    ensures |StartsOf(Run(s, arrivals).1, p)| >= Weight(p)
    ensures AllBacklogged(MeterOf(s), arrivals) ==> |StartsOf(Run(s, arrivals).1, p)| == Weight(p)
  {
    GainsAreStarts(s, arrivals, p);
    SevenTurns(s.cursor, |arrivals|, p);
    AtLeastItsTurns(MeterOf(s), arrivals, p);
    if AllBacklogged(MeterOf(s), arrivals) {
      ExactlyItsTurns(MeterOf(s), arrivals, p);
    }
  }

  // ---- Waiting -----------------------------------------------------------------------

  /** Nothing is lost, invented or reordered within a priority. */
  lemma {:induction false} FirstInFirstOut<T>(s: State<T>, arrivals: seq<Queues<T>>, p: Priority)
    requires s.cursor < 7
    ensures var (end, log) := Run(s, arrivals);
            StartsOf(log, p) + end.queues.Of(p) == s.queues.Of(p) + ArrivalsOf(arrivals, p)
    decreases |arrivals|
  {
    if arrivals != [] {
      OneDecision(s, arrivals[0], p);
      var (s', started) := Decide(s, arrivals[0]);
      SharesAdd(s, arrivals, s', started, p);
      RunCons(s, arrivals, s', started);
      FirstInFirstOut(s', arrivals[1..], p);
      Regroup(StartsOf(started, p), StartsOf(Run(s', arrivals[1..]).1, p), Run(s, arrivals).0.queues.Of(p),
              s'.queues.Of(p), s.queues.Of(p), arrivals[0].Of(p), ArrivalsOf(arrivals[1..], p));
    }
  }

  lemma Regroup<T>(a: seq<T>, b: seq<T>, end: seq<T>, middle: seq<T>, start: seq<T>, first: seq<T>, later: seq<T>)
    requires a + middle == start + first && b + end == middle + later
    ensures a + b + end == start + (first + later)
  {
    calc {
      a + b + end;
      a + (b + end);
      a + (middle + later);
      (a + middle) + later;
      start + first + later;
      start + (first + later);
    }
  }

  /** A queue starts at least what it held, or one delivery in every turn of its own. */
  lemma {:induction false} HeldOrTurns<T>(m: Meter, arrivals: seq<Queues<T>>, p: Priority)
    requires m.cursor < 7
    ensures Gains(m, arrivals, p) >= m.Of(p) || Gains(m, arrivals, p) >= Turns(m.cursor, |arrivals|, p)
    decreases |arrivals|
  {
    if arrivals != [] {
      var waiting, later := m.Plus(arrivals[0]), arrivals[1..];
      if waiting.Of(p) > 0 {
        TurnTaken(waiting, p, |later|);
        HeldOrTurns(waiting.Take(), later, p);
      }
    }
  }

  lemma {:induction false} TurnsSplit(i: nat, a: nat, b: nat, p: Priority)
    ensures Turns(i, a + b, p) == Turns(i, a, p) + Turns(i + a, b, p)
    decreases a
  {
    if a > 0 {
      TurnsSplit(i + 1, a - 1, b, p);
    }
  }

  lemma {:induction false} TurnsOfCycles(i: nat, cycles: nat, seven: nat, p: Priority)
    requires seven == 7
    ensures Turns(i, seven * cycles, p) == Weight(p) * cycles
    decreases cycles
  {
    if cycles > 0 {
      SevenTurns(i, seven, p);
      TurnsSplit(i, seven, seven * (cycles - 1), p);
      TurnsOfCycles(i + seven, cycles - 1, seven, p);
      assert Weight(p) * cycles == Weight(p) * (cycles - 1) + Weight(p);
    }
  }

  lemma EnoughStarts<T>(s: State<T>, arrivals: seq<Queues<T>>, p: Priority, cycles: nat)
    requires s.cursor < 7 && |arrivals| == 7 * cycles
    ensures var n := |StartsOf(Run(s, arrivals).1, p)|;
            n >= |s.queues.Of(p)| || n >= Weight(p) * cycles
  {
    GainsAreStarts(s, arrivals, p);
    HeldOrTurns(MeterOf(s), arrivals, p);
    TurnsOfCycles(s.cursor, cycles, 7, p);
  }

  /** The delivery `k` places from the front starts, in its place, as soon as its priority's
      share of whole cycles covers it. */
  lemma StartsInTurn<T>(s: State<T>, arrivals: seq<Queues<T>>, p: Priority, cycles: nat, k: nat)
    requires s.cursor < 7 && |arrivals| == 7 * cycles
    requires k < |s.queues.Of(p)| && k < Weight(p) * cycles
    ensures var starts := StartsOf(Run(s, arrivals).1, p);
            k < |starts| && starts[k] == s.queues.Of(p)[k]
  {
    EnoughStarts(s, arrivals, p, cycles);
    FirstInFirstOut(s, arrivals, p);
    var (end, log) := Run(s, arrivals);
    assert StartsOf(log, p)[k] == (StartsOf(log, p) + end.queues.Of(p))[k];
  }

  /** The k-th waiting low delivery starts within 7k decisions. */
  lemma LowStartsWithin<T>(s: State<T>, arrivals: seq<Queues<T>>, k: nat)
    requires s.cursor < 7 && 1 <= k <= |s.queues.low| && |arrivals| == 7 * k
    ensures var starts := StartsOf(Run(s, arrivals).1, Low);
            k <= |starts| && starts[k - 1] == s.queues.low[k - 1]
  {
    StartsInTurn(s, arrivals, Low, k, k - 1);
  }
}
