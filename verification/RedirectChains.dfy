/** Redirect-chain reservations of browser fetches that share one run budget
    (request accounting inside `BrowserSession.fetch`, engine/browser_session.py). */
module RedirectChains {
  import opened Sums
  import opened RunBudgets

  const MAX_REDIRECTS: nat := 20
  const CAPACITY: nat := 21 // MAX_REDIRECTS and the request itself
  const REDIRECT_STATUSES: set<int> := {301, 302, 303, 307, 308}

  /** A browser request; a redirected one remembers where it came from. */
  datatype Request = Root(id: nat) | Redirect(id: nat, redirectedFrom: Request)

  function RootOf(r: Request): Request {
    if r.Redirect? then RootOf(r.redirectedFrom) else r
  }

  lemma {:induction false} RootIsRoot(r: Request)
    ensures RootOf(r).Root?
  {
    if r.Redirect? {
      RootIsRoot(r.redirectedFrom);
    }
  }

  method ChainRoot(r: Request) returns (root: Request)
    ensures root == RootOf(r)
  {
    root := r;
    while root.Redirect?
      invariant RootOf(root) == RootOf(r)
      decreases root
    {
      root := root.redirectedFrom;
    }
  }

  /** `sum(chains.values())`. */
  method TotalIssued(chains: map<Request, nat>) returns (issued: int)
    ensures issued == SumValues(chains)
  {
    issued := 0;
    var rest := chains;
    while |rest| > 0
      invariant SumValues(chains) == issued + SumValues(rest)
      decreases |rest|
    {
      var r :| r in rest;
      SumWithout(rest, r);
      MapLess(rest, r);
      issued := issued + rest[r];
      rest := rest - {r};
    }
  }

  /** One fetch's books: requests issued per open chain, and chains being released. */
  datatype Books = Books(chains: map<Request, nat>, releasing: seq<nat>)
  {
    function Reserve(r: Request): Books {
      this.(chains := chains[r := 1])
    }

    function Observe(r: Request): Books {
      if r.Redirect? && RootOf(r) in chains
      then this.(chains := chains[RootOf(r) := chains[RootOf(r)] + 1]) else this
    }

    function Release(r: Request): Books {
      var root := RootOf(r);
      if root in chains then Books(chains - {root}, releasing + [chains[root]]) else this
    }

    function Released(k: nat): Books
      requires k < |releasing|
    {
      this.(releasing := releasing[..k] + releasing[k + 1..])
    }

    /** Books a real browser produces: it follows at most 20 redirects. */
    ghost predicate Bounded() {
      && (forall r :: r in chains ==> 1 <= chains[r] <= CAPACITY)
      && (forall i :: 0 <= i < |releasing| ==> 1 <= releasing[i] <= CAPACITY)
    }
  }

  class FetchAccounting {
    const budget: RunBudget
    var chains: map<Request, nat>
    var releasing: seq<nat>

    ghost function State(): Books
      reads this
    {
      Books(chains, releasing)
    }

    constructor (budget: RunBudget)
      ensures this.budget == budget && State() == Books(map[], [])
    {
      this.budget, chains, releasing := budget, map[], [];
    }

    /** Before a request continues: capacity for it and for every redirect it may take. */
    method Reserve(request: Request, now: real) returns (outcome: Outcome)
      modifies this`chains, budget`requests, budget`exhausted
      ensures (budget.State(), outcome) == old(budget.State()).Reserve(Requests, CAPACITY, now)
      ensures State() == if outcome.Accepted? then old(State()).Reserve(request) else old(State())
    {
      outcome := budget.ReserveRequests(CAPACITY, now);
      if outcome.Accepted? {
        chains := chains[request := 1];
      }
    }

    method ObserveRequest(request: Request)
      modifies this`chains
      ensures State() == old(State()).Observe(request)
    {
      if request.Root? {
        return;
      }
      var root := ChainRoot(request);
      if root in chains {
        chains := chains[root := chains[root] + 1];
      }
    }

    method ReleaseChain(request: Request)
      modifies this`chains, this`releasing
      ensures State() == old(State()).Release(request)
    {
      var root := ChainRoot(request);
      if root in chains {
        releasing := releasing + [chains[root]];
        chains := chains - {root};
      }
    }

    method ObserveFailed(request: Request)
      modifies this`chains, this`releasing
      ensures State() == old(State()).Release(request)
    {
      ReleaseChain(request);
    }

    method ObserveResponse(request: Request, status: int)
      modifies this`chains, this`releasing
      ensures State() == if status in REDIRECT_STATUSES then old(State()) else old(State()).Release(request)
    {
      if status !in REDIRECT_STATUSES {
        ReleaseChain(request);
      }
    }

    /** A scheduled release task runs. */
    method RunRelease(k: nat) returns (outcome: Outcome)
      requires k < |releasing|
      modifies this`releasing, budget`requests
      ensures State() == old(State()).Released(k)
      ensures (budget.State(), outcome) == old(budget.State()).Settle(CAPACITY, old(releasing)[k])
    {
      outcome := budget.SettleRequests(CAPACITY, releasing[k]);
      releasing := releasing[..k] + releasing[k + 1..];
    }

    /** After the page is gone and every release task has ended: settle all open chains at once. */
    method FinalSettle() returns (outcome: Outcome)
      modifies budget`requests
      ensures (budget.State(), outcome) ==
              old(budget.State()).Settle(CAPACITY * |chains|, SumValues(chains))
    {
      var issued := TotalIssued(chains);
      outcome := budget.SettleRequests(CAPACITY * |chains|, issued);
    }
  }

  // ---- Any number of fetches sharing one budget --------------------------------

  /** What the browser does with a chain: a request is on its way, or its response told the
      browser to go elsewhere. `hops` counts the redirects followed. */
  datatype Stage = Flying(hops: nat) | Redirecting(hops: nat)

  /** The statuses a browser follows (the redirect statuses of the Fetch Standard). */
  predicate BrowserFollows(status: int) {
    status == 301 || status == 302 || status == 303 || status == 307 || status == 308
  }

  /** `live` are the chains the browser still works on. A fetch is closed once it has ended;
      capacity held after that is never returned. `lateHeld` counts those chains and `lateIssued`
      the requests they issued. */
  datatype Fetch = Fetch(books: Books, live: map<Request, Stage>, closed: bool, lateHeld: int, lateIssued: int)

  /** `done` is what settled chains and direct fetches issued, `issued` every request released
      to the network by anyone. */
  datatype System = System(budget: Budget, fetches: seq<Fetch>, done: int, issued: int)

  /** What happens next, each an uninterrupted step of the event loop. */
  datatype Step =
    | Open
    | Continue(f: nat, request: Request, at: real)
    | Redirected(f: nat, request: Request)
    | Responded(f: nat, request: Request, status: int)
    | Failed(f: nat, request: Request)
    | ReleaseRuns(f: nat, k: nat)
    | Close(f: nat)
    | Abandon(f: nat)
    | Direct(at: real)
    | Other(event: Event)

  /** What the browser and the fetch guarantee. A route asks to continue its request once and is
      the root of its chain; the browser redirects a chain only after a response that says so, and
      at most 20 times; a request is answered once; browser events stop when the page is gone; the
      release tasks are awaited before the last settlement. A handler still running may reserve
      after that. `Abandon` is a fetch that ends without its last settlement: its page could not be
      stopped, or it was cancelled while it waited for the release tasks, which are cancelled with
      it, or for the settlement itself. */
  ghost predicate Enabled(s: System, step: Step) {
    match step
    case Open => true
    case Continue(f, r, _) => f < |s.fetches| && r.Root? && (s.fetches[f].closed || r !in s.fetches[f].live)
    case Redirected(f, r) =>
      f < |s.fetches| && !s.fetches[f].closed && r.Redirect? && RootOf(r) in s.fetches[f].live
      && s.fetches[f].live[RootOf(r)].Redirecting? && s.fetches[f].live[RootOf(r)].hops < MAX_REDIRECTS
    case Responded(f, r, _) =>
      f < |s.fetches| && !s.fetches[f].closed
      && (RootOf(r) in s.fetches[f].live ==> s.fetches[f].live[RootOf(r)].Flying?)
    case Failed(f, _) => f < |s.fetches| && !s.fetches[f].closed
    case ReleaseRuns(f, k) => f < |s.fetches| && !s.fetches[f].closed && k < |s.fetches[f].books.releasing|
    case Close(f) => f < |s.fetches| && !s.fetches[f].closed && s.fetches[f].books.releasing == []
    case Abandon(f) => f < |s.fetches| && !s.fetches[f].closed
    case Direct(_) => true
    case Other(e) => !e.op.Settled? && !(e.op.Reserved? && e.op.name == Requests)
  }

  const NEW_FETCH: Fetch := Fetch(Books(map[], []), map[], false, 0, 0)

  /** The books and the browser's chains of one fetch change. */
  ghost function Moved(s: System, f: nat, books: Books, live: map<Request, Stage>): System
    requires f < |s.fetches|
  {
    s.(fetches := s.fetches[f := s.fetches[f].(books := books, live := live)])
  }

  ghost function With(s: System, f: nat, books: Books): System
    requires f < |s.fetches|
  {
    s.(fetches := s.fetches[f := s.fetches[f].(books := books)])
  }

  ghost function Next(s: System, step: Step): System
    requires Enabled(s, step)
  {
    match step
    case Open => s.(fetches := s.fetches + [NEW_FETCH])
    case Continue(f, r, at) =>
      var (budget, outcome) := s.budget.Reserve(Requests, CAPACITY, at);
      var fetch := s.fetches[f];
      if !outcome.Accepted? then s.(budget := budget)
      else if fetch.closed then
        System(budget,
               s.fetches[f := fetch.(books := fetch.books.Reserve(r), lateHeld := fetch.lateHeld + 1,
                                     lateIssued := fetch.lateIssued + 1)],
               s.done, s.issued + 1)
      else Moved(s, f, fetch.books.Reserve(r), fetch.live[r := Flying(0)]).(budget := budget, issued := s.issued + 1)
    case Redirected(f, r) =>
      var fetch := s.fetches[f];
      var hops := fetch.live[RootOf(r)].hops;
      Moved(s, f, fetch.books.Observe(r), fetch.live[RootOf(r) := Flying(hops + 1)]).(issued := s.issued + 1)
    case Responded(f, r, status) =>
      var fetch := s.fetches[f];
      var books := if status in REDIRECT_STATUSES then fetch.books else fetch.books.Release(r);
      var live :=
        if RootOf(r) !in fetch.live then fetch.live
        else if BrowserFollows(status) then fetch.live[RootOf(r) := Redirecting(fetch.live[RootOf(r)].hops)]
        else fetch.live - {RootOf(r)};
      Moved(s, f, books, live)
    case Failed(f, r) => Moved(s, f, s.fetches[f].books.Release(r), s.fetches[f].live - {RootOf(r)})
    case ReleaseRuns(f, k) =>
      var count := s.fetches[f].books.releasing[k];
      With(s, f, s.fetches[f].books.Released(k)).(
        budget := s.budget.Settle(CAPACITY, count).0, done := s.done + count)
    case Close(f) =>
      var chains := s.fetches[f].books.chains;
      s.(budget := s.budget.Settle(CAPACITY * |chains|, SumValues(chains)).0,
         fetches := s.fetches[f := s.fetches[f].(closed := true)],
         done := s.done + SumValues(chains))
    case Abandon(f) =>
      var fetch := s.fetches[f];
      s.(fetches := s.fetches[f := fetch.(closed := true, lateHeld := Held(fetch), lateIssued := Issued(fetch))])
    case Direct(at) =>
      var (budget, outcome) := s.budget.Reserve(Requests, 1, at);
      if outcome.Accepted? then s.(budget := budget, done := s.done + 1, issued := s.issued + 1)
      else s.(budget := budget)
    case Other(e) => s.(budget := Apply(s.budget, e).0)
  }

  ghost function Same(n: nat): int { n }

  ghost function Counts(counts: seq<nat>): int {
    SumOf(Same, counts)
  }

  /** Chains that hold 21 requests: open, being released, or never returned. */
  ghost function Held(f: Fetch): int {
    if f.closed then f.lateHeld else |f.books.chains| + |f.books.releasing|
  }

  /** Requests those chains have issued. */
  ghost function Issued(f: Fetch): int {
    if f.closed then f.lateIssued
    else SumValues(f.books.chains) + Counts(f.books.releasing)
  }

  /** The open chains are the browser's, and each has counted its request and every redirect. */
  ghost predicate LiveOk(live: map<Request, Stage>, chains: map<Request, nat>) {
    live.Keys == chains.Keys && forall r :: r in live ==> chains[r] == live[r].hops + 1
  }

  ghost predicate FetchOk(f: Fetch) {
    && (!f.closed ==> f.books.Bounded() && LiveOk(f.live, f.books.chains) && f.lateHeld == f.lateIssued == 0)
    && Issued(f) <= CAPACITY * Held(f)
  }

  /** The accounting holds: the counter is what ended chains issued plus 21 for every chain that
      still holds its reservation, and it covers everything sent. */
  ghost predicate Inv(s: System) {
    && (forall i :: 0 <= i < |s.fetches| ==> FetchOk(s.fetches[i]))
    && s.budget.requests == s.done + CAPACITY * SumOf(Held, s.fetches)
    && s.issued == s.done + SumOf(Issued, s.fetches)
    && s.budget.requests <= s.budget.limits.requests
  }

  lemma BooksOk(f: Fetch)
    requires !f.closed && f.books.Bounded()
    ensures Held(f) <= Issued(f) <= CAPACITY * Held(f)
    ensures |f.books.chains| <= SumValues(f.books.chains) <= CAPACITY * |f.books.chains|
  {
    SumAtLeast(f.books.chains);
    SumWithin(f.books.chains, CAPACITY);
    ReleasingWithin(f.books.releasing);
  }

  lemma {:induction false} SumAtLeast(m: map<Request, nat>)
    requires forall k :: k in m ==> 1 <= m[k]
    ensures |m| <= SumValues(m)
    decreases |m|
  {
    if |m| > 0 {
      var k := SomeKey(m);
      MapLess(m, k);
      SumWithout(m, k);
      SumAtLeast(m - {k});
    }
  }

  lemma {:induction false} ReleasingWithin(counts: seq<nat>)
    requires forall i :: 0 <= i < |counts| ==> 1 <= counts[i] <= CAPACITY
    ensures |counts| <= Counts(counts) <= CAPACITY * |counts|
  {
    if counts != [] {
      ReleasingWithin(counts[1..]);
    }
  }

  /** A step that changes one fetch keeps the books if it moves the counters by the same amounts. */
  lemma OneFetchChanged(s: System, t: System, f: nat)
    requires Inv(s) && f < |s.fetches| == |t.fetches| && t.fetches == s.fetches[f := t.fetches[f]]
    requires FetchOk(t.fetches[f])
    requires t.budget.requests - s.budget.requests ==
             t.done - s.done + CAPACITY * (Held(t.fetches[f]) - Held(s.fetches[f]))
    requires t.issued - s.issued == t.done - s.done + Issued(t.fetches[f]) - Issued(s.fetches[f])
    requires t.budget.requests <= t.budget.limits.requests
    ensures Inv(t)
  {
    SumUpdate(Held, s.fetches, f, t.fetches[f]);
    SumUpdate(Issued, s.fetches, f, t.fetches[f]);
    forall i | 0 <= i < |t.fetches| ensures FetchOk(t.fetches[i]) {
      assert i != f ==> t.fetches[i] == s.fetches[i];
    }
  }

  /** What each change of one fetch's books does to its two totals. */
  lemma ReserveTotals(b: Books, r: Request)
    requires b.Bounded() && r !in b.chains
    ensures b.Reserve(r).Bounded()
    ensures |b.Reserve(r).chains| == |b.chains| + 1
    ensures SumValues(b.Reserve(r).chains) == SumValues(b.chains) + 1
  {
    SumSet(b.chains, r, 1);
  }

  lemma ObserveTotals(b: Books, r: Request)
    requires b.Bounded() && r.Redirect? && RootOf(r) in b.chains && b.chains[RootOf(r)] <= MAX_REDIRECTS
    ensures b.Observe(r).Bounded() && b.Observe(r).releasing == b.releasing
    ensures |b.Observe(r).chains| == |b.chains|
    ensures SumValues(b.Observe(r).chains) == SumValues(b.chains) + 1
  {
    SumSet(b.chains, RootOf(r), b.chains[RootOf(r)] + 1);
  }

  lemma ReleaseTotals(b: Books, r: Request)
    requires b.Bounded()
    ensures b.Release(r).Bounded()
    ensures |b.Release(r).chains| + |b.Release(r).releasing| == |b.chains| + |b.releasing|
    ensures SumValues(b.Release(r).chains) + Counts(b.Release(r).releasing) ==
            SumValues(b.chains) + Counts(b.releasing)
  {
    var root := RootOf(r);
    if root in b.chains {
      SumWithout(b.chains, root);
      MapLess(b.chains, root);
      SumSnoc(Same, b.releasing, b.chains[root]);
    }
  }

  lemma ReleasedTotals(b: Books, k: nat)
    requires b.Bounded() && k < |b.releasing|
    ensures b.Released(k).Bounded()
    ensures |b.Released(k).releasing| == |b.releasing| - 1
    ensures Counts(b.Released(k).releasing) == Counts(b.releasing) - b.releasing[k]
  {
    SumRemove(Same, b.releasing, k);
  }

  lemma ContinueKeepsInv(s: System, step: Step)
    requires Inv(s) && Enabled(s, step) && step.Continue?
    ensures Inv(Next(s, step))
  {
    var fetch, next := s.fetches[step.f], Next(s, step);
    if s.budget.Reserve(Requests, CAPACITY, step.at).1.Accepted? {
      if !fetch.closed {
        ReserveTotals(fetch.books, step.request);
        BooksOk(next.fetches[step.f]);
      }
      OneFetchChanged(s, next, step.f);
    }
  }

  lemma RedirectedKeepsInv(s: System, f: nat, r: Request)
    requires Inv(s) && Enabled(s, Redirected(f, r))
    ensures Inv(Next(s, Redirected(f, r)))
  {
    var fetch, next := s.fetches[f], Next(s, Redirected(f, r));
    assert FetchOk(fetch);
    ObserveTotals(fetch.books, r);
    BooksOk(next.fetches[f]);
    OneFetchChanged(s, next, f);
  }

  /** A chain is released in the books exactly when the browser is done with it. */
  lemma ReleaseKeepsLive(fetch: Fetch, r: Request)
    requires LiveOk(fetch.live, fetch.books.chains)
    ensures LiveOk(fetch.live - {RootOf(r)}, fetch.books.Release(r).chains)
  {
  }

  lemma FailedKeepsInv(s: System, f: nat, r: Request)
    requires Inv(s) && Enabled(s, Failed(f, r))
    ensures Inv(Next(s, Failed(f, r)))
  {
    var fetch, next := s.fetches[f], Next(s, Failed(f, r));
    assert FetchOk(fetch);
    ReleaseTotals(fetch.books, r);
    ReleaseKeepsLive(fetch, r);
    BooksOk(next.fetches[f]);
    OneFetchChanged(s, next, f);
  }

  lemma RespondedKeepsInv(s: System, f: nat, r: Request, status: int)
    requires Inv(s) && Enabled(s, Responded(f, r, status))
    ensures Inv(Next(s, Responded(f, r, status)))
  {
    if BrowserFollows(status) {
      RedirectingKeepsInv(s, f, r, status);
    } else {
      FailedKeepsInv(s, f, r);
      EndsLikeAFailure(s, f, r, status);
    }
  }

  lemma EndsLikeAFailure(s: System, f: nat, r: Request, status: int)
    requires Enabled(s, Responded(f, r, status)) && !BrowserFollows(status)
    ensures Enabled(s, Failed(f, r)) && Next(s, Responded(f, r, status)) == Next(s, Failed(f, r))
  {
    assert s.fetches[f].live - {RootOf(r)} == Next(s, Responded(f, r, status)).fetches[f].live;
  }

  lemma RedirectingKeepsInv(s: System, f: nat, r: Request, status: int)
    requires Inv(s) && Enabled(s, Responded(f, r, status)) && BrowserFollows(status)
    ensures Inv(Next(s, Responded(f, r, status)))
  {
    assert FetchOk(s.fetches[f]);
    OneFetchChanged(s, Next(s, Responded(f, r, status)), f);
  }

  lemma ReleaseRunsKeepsInv(s: System, f: nat, k: nat)
    requires Inv(s) && Enabled(s, ReleaseRuns(f, k))
    ensures Inv(Next(s, ReleaseRuns(f, k)))
  {
    var next := Next(s, ReleaseRuns(f, k));
    assert FetchOk(s.fetches[f]);
    ReleasedTotals(s.fetches[f].books, k);
    BooksOk(next.fetches[f]);
    OneFetchChanged(s, next, f);
  }

  lemma ClosingKeepsInv(s: System, step: Step)
    requires Inv(s) && Enabled(s, step) && (step.Close? || step.Abandon?)
    ensures Inv(Next(s, step))
  {
    BooksOk(s.fetches[step.f]);
    OneFetchChanged(s, Next(s, step), step.f);
  }

  lemma NextKeepsInv(s: System, step: Step)
    requires Inv(s) && Enabled(s, step)
    ensures Inv(Next(s, step))
  {
    match step
    case Open =>
      SumSnoc(Held, s.fetches, NEW_FETCH);
      SumSnoc(Issued, s.fetches, NEW_FETCH);
    case Continue(_, _, _) => ContinueKeepsInv(s, step);
    case Redirected(f, r) => RedirectedKeepsInv(s, f, r);
    case Responded(f, r, status) => RespondedKeepsInv(s, f, r, status);
    case Failed(f, r) => FailedKeepsInv(s, f, r);
    case ReleaseRuns(f, k) => ReleaseRunsKeepsInv(s, f, k);
    case Close(_) => ClosingKeepsInv(s, step);
    case Abandon(_) => ClosingKeepsInv(s, step);
    case Direct(_) =>
    case Other(e) =>
  }

  ghost predicate ValidRun(s: System, steps: seq<Step>)
    decreases |steps|
  {
    steps == [] || (Enabled(s, steps[0]) && ValidRun(Next(s, steps[0]), steps[1..]))
  }

  ghost function RunAll(s: System, steps: seq<Step>): System
    requires ValidRun(s, steps)
    decreases |steps|
  {
    if steps == [] then s else RunAll(Next(s, steps[0]), steps[1..])
  }

  lemma {:induction false} RunKeepsInv(s: System, steps: seq<Step>)
    requires Inv(s) && ValidRun(s, steps)
    ensures Inv(RunAll(s, steps))
    decreases |steps|
  {
    if steps != [] {
      NextKeepsInv(s, steps[0]);
      RunKeepsInv(Next(s, steps[0]), steps[1..]);
    }
  }

  ghost predicate Initial(s: System) {
    s.fetches == [] && s.budget.requests == s.done == s.issued == 0 <= s.budget.limits.requests
  }

  /** In every interleaving: the counter is exact up to the chains that still hold 21, it never
      passes the limit, and so no more requests are ever sent than the limit allows. */
  lemma RequestsStayWithinTheLimit(s: System, steps: seq<Step>)
    requires Initial(s) && ValidRun(s, steps)
    ensures var t := RunAll(s, steps);
            && t.budget.requests == t.done + CAPACITY * SumOf(Held, t.fetches)
            && t.issued <= t.budget.requests <= t.budget.limits.requests
  {
    assert SumOf(Held, s.fetches) == 0 && SumOf(Issued, s.fetches) == 0;
    RunKeepsInv(s, steps);
    IssuedIsCovered(RunAll(s, steps).fetches);
  }

  /** In every interleaving, while a fetch is open, its open chains are those the browser works on,
      and each has counted its request and every redirect the browser followed, of any status. */
  lemma EveryRedirectIsCounted(s: System, steps: seq<Step>, f: nat)
    requires Initial(s) && ValidRun(s, steps)
    requires f < |RunAll(s, steps).fetches| && !RunAll(s, steps).fetches[f].closed
    ensures var fetch := RunAll(s, steps).fetches[f];
            && fetch.live.Keys == fetch.books.chains.Keys
            && forall r :: r in fetch.live ==> fetch.books.chains[r] == fetch.live[r].hops + 1 <= CAPACITY
  {
    assert SumOf(Held, s.fetches) == 0 && SumOf(Issued, s.fetches) == 0;
    RunKeepsInv(s, steps);
    assert FetchOk(RunAll(s, steps).fetches[f]);
  }

  lemma {:induction false} IssuedIsCovered(fetches: seq<Fetch>)
    requires forall i :: 0 <= i < |fetches| ==> FetchOk(fetches[i])
    ensures SumOf(Issued, fetches) <= CAPACITY * SumOf(Held, fetches)
  {
    if fetches != [] {
      assert FetchOk(fetches[0]);
      IssuedIsCovered(fetches[1..]);
    }
  }

  /** No settlement is ever rejected as invalid. */
  lemma SettlementsAreValid(s: System, steps: seq<Step>, step: Step)
    requires Initial(s) && ValidRun(s, steps)
    requires Enabled(RunAll(s, steps), step)
    ensures var t := RunAll(s, steps);
            && (step.ReleaseRuns? ==>
                  t.budget.Settle(CAPACITY, t.fetches[step.f].books.releasing[step.k]).1.Accepted?)
            && (step.Close? ==>
                  var chains := t.fetches[step.f].books.chains;
                  t.budget.Settle(CAPACITY * |chains|, SumValues(chains)).1.Accepted?)
  {
    assert SumOf(Held, s.fetches) == 0 && SumOf(Issued, s.fetches) == 0;
    RunKeepsInv(s, steps);
    if step.Close? {
      BooksOk(RunAll(s, steps).fetches[step.f]);
    }
  }

  // ---- When the counter is exact ---------------------------------------------------

  /** A step after which capacity is held that nobody will use or return: a request let through
      by a fetch that has ended, or a fetch that ends without settling a chain below 21. */
  ghost predicate Wastes(s: System, step: Step)
    requires Enabled(s, step)
  {
    match step
    case Continue(f, _, at) => s.fetches[f].closed && s.budget.Reserve(Requests, CAPACITY, at).1.Accepted?
    case Abandon(f) => !AllUsed(s.fetches[f].books)
    case _ => false
  }

  /** Every chain has taken all its redirects. */
  ghost predicate AllUsed(b: Books) {
    && (forall r :: r in b.chains ==> b.chains[r] == CAPACITY)
    && (forall i :: 0 <= i < |b.releasing| ==> b.releasing[i] == CAPACITY)
  }

  ghost predicate Frugal(s: System, steps: seq<Step>)
    requires ValidRun(s, steps)
    decreases |steps|
  {
    steps == [] || (!Wastes(s, steps[0]) && Frugal(Next(s, steps[0]), steps[1..]))
  }

  /** Capacity that ended fetches hold and did not use. */
  ghost function Unused(f: Fetch): int {
    if f.closed then CAPACITY * f.lateHeld - f.lateIssued else 0
  }

  lemma {:induction false} FullMap(m: map<Request, nat>)
    requires forall k :: k in m ==> m[k] <= CAPACITY
    ensures SumValues(m) <= CAPACITY * |m|
    ensures SumValues(m) == CAPACITY * |m| <==> forall k :: k in m ==> m[k] == CAPACITY
    decreases |m|
  {
    if |m| > 0 {
      var k := SomeKey(m);
      MapLess(m, k);
      SumWithout(m, k);
      FullMap(m - {k});
      assert forall j :: j in m ==> j == k || j in m - {k};
    }
  }

  lemma {:induction false} FullCounts(counts: seq<nat>)
    requires forall i :: 0 <= i < |counts| ==> counts[i] <= CAPACITY
    ensures Counts(counts) <= CAPACITY * |counts|
    ensures Counts(counts) == CAPACITY * |counts| <==> forall i :: 0 <= i < |counts| ==> counts[i] == CAPACITY
  {
    if counts != [] {
      FullCounts(counts[1..]);
      assert forall i :: 0 < i < |counts| ==> counts[i] == counts[1..][i - 1];
    }
  }

  /** A fetch ended without settlement leaves nothing unused exactly when all its chains are full. */
  lemma AbandonedUnused(f: Fetch)
    requires !f.closed && f.books.Bounded()
    ensures Issued(f) <= CAPACITY * Held(f)
    ensures Issued(f) == CAPACITY * Held(f) <==> AllUsed(f.books)
  {
    FullMap(f.books.chains);
    FullCounts(f.books.releasing);
  }

  /** Unused capacity never shrinks, and grows exactly on a wasteful step. */
  lemma StepUnused(s: System, step: Step)
    requires Inv(s) && Enabled(s, step)
    ensures var grown := SumOf(Unused, Next(s, step).fetches) - SumOf(Unused, s.fetches);
            grown >= 0 && (grown > 0 <==> Wastes(s, step))
  {
    var next := Next(s, step);
    match step
    case Open => SumSnoc(Unused, s.fetches, next.fetches[|s.fetches|]);
    case Direct(_) =>
    case Other(_) =>
    case Abandon(f) =>
      AbandonedUnused(s.fetches[f]);
      SumUpdate(Unused, s.fetches, f, next.fetches[f]);
    case _ =>
      var f := step.f;
      if next.fetches != s.fetches {
        assert next.fetches == s.fetches[f := next.fetches[f]];
        SumUpdate(Unused, s.fetches, f, next.fetches[f]);
      }
  }

  lemma {:induction false} RunUnused(s: System, steps: seq<Step>)
    requires Inv(s) && ValidRun(s, steps)
    ensures var grown := SumOf(Unused, RunAll(s, steps).fetches) - SumOf(Unused, s.fetches);
            grown >= 0 && (grown == 0 <==> Frugal(s, steps))
    decreases |steps|
  {
    if steps != [] {
      NextKeepsInv(s, steps[0]);
      StepUnused(s, steps[0]);
      RunUnused(Next(s, steps[0]), steps[1..]);
    }
  }

  lemma {:induction false} ClosedGap(fetches: seq<Fetch>)
    requires forall i :: 0 <= i < |fetches| ==> fetches[i].closed
    ensures CAPACITY * SumOf(Held, fetches) - SumOf(Issued, fetches) == SumOf(Unused, fetches)
  {
    if fetches != [] {
      ClosedGap(fetches[1..]);
    }
  }

  /** Once every fetch has ended, the counter is exactly what was sent, if and only if no fetch
      let a request through after its end and none ended unsettled with a chain below 21. */
  lemma CounterIsExactAfterSettlement(s: System, steps: seq<Step>)
    requires Initial(s) && ValidRun(s, steps)
    requires forall i :: 0 <= i < |RunAll(s, steps).fetches| ==> RunAll(s, steps).fetches[i].closed
    ensures RunAll(s, steps).budget.requests == RunAll(s, steps).issued <==> Frugal(s, steps)
  {
    assert SumOf(Held, s.fetches) == 0 && SumOf(Issued, s.fetches) == 0 && SumOf(Unused, s.fetches) == 0;
    RunKeepsInv(s, steps);
    RunUnused(s, steps);
    ClosedGap(RunAll(s, steps).fetches);
  }

  lemma RunCons(s: System, step: Step, rest: seq<Step>)
    requires Enabled(s, step) && ValidRun(Next(s, step), rest)
    ensures ValidRun(s, [step] + rest) && RunAll(s, [step] + rest) == RunAll(Next(s, step), rest)
  {
    assert ([step] + rest)[1..] == rest;
  }

  /** All fetches of `t` have ended, with 21 requests counted for the one that was sent. */
  ghost predicate CountsTwentyTooMany(t: System) {
    && |t.fetches| == 1 && t.fetches[0].closed
    && t.budget.requests == 21 && t.issued == 1
  }

  /** It can fail: a handler that reserves after its fetch was settled leaves 21 for one request. */
  lemma LateReserveIsNeverReturned(s: System, request: Request, at: real)
    requires Initial(s) && request.Root? && s.budget.Reserve(Requests, CAPACITY, at).1.Accepted?
    ensures var steps := [Open] + ([Close(0)] + ([Continue(0, request, at)] + []));
            ValidRun(s, steps) && CountsTwentyTooMany(RunAll(s, steps))
  {
    var none: map<Request, nat> := map[];
    assert SumValues(none) == 0;
    var a := Next(s, Open);
    var b := Next(a, Close(0));
    assert b.budget == s.budget;
    RunCons(b, Continue(0, request, at), []);
    RunCons(a, Close(0), [Continue(0, request, at)] + []);
    RunCons(s, Open, [Close(0)] + ([Continue(0, request, at)] + []));
  }

  /** And a fetch cancelled while its chain is being released never gives the rest back. */
  lemma CancelledReleaseIsNeverReturned(s: System, request: Request, at: real)
    requires Initial(s) && request.Root? && s.budget.Reserve(Requests, CAPACITY, at).1.Accepted?
    ensures var steps := [Open] + ([Continue(0, request, at)] + ([Failed(0, request)] + ([Abandon(0)] + [])));
            ValidRun(s, steps) && CountsTwentyTooMany(RunAll(s, steps))
  {
    var a := Next(s, Open);
    var b := Next(a, Continue(0, request, at));
    var c := Next(b, Failed(0, request));
    RunCons(c, Abandon(0), []);
    RunCons(b, Failed(0, request), [Abandon(0)] + []);
    RunCons(a, Continue(0, request, at), [Failed(0, request)] + ([Abandon(0)] + []));
    RunCons(s, Open, [Continue(0, request, at)] + ([Failed(0, request)] + ([Abandon(0)] + [])));
  }
}
