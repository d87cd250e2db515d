# Scrapeyard verification

A Dafny model of the parts of Scrapeyard that have to be right in every run: its shared accounting
and single-flight protocols, its state machines, the fast forms that must equal simple ones, and
its parsers and policy compiler. `dafny verify dfyconfig.toml` checks everything.

Objects whose methods update fields are classes here, and each method is proved against a function
of the old state. Protocols between coroutines and threads are state machines: a step is what one
side does between two points where another can act, and the theorems hold for every run. Times are
reals and the clock is monotone.

| file | models |
|---|---|
| `JsonEncoding.dfy` | the chunked JSON encoder and the JSON sizer, against the plain encoder |
| `JsonReading.dfy` | what an encoding means: readers of JSON text (sections 4, 5 and 7 of RFC 8259) and of UTF-8 (section 3 of RFC 3629) |
| `ResultSize.dfy` | bytes reserved while records are extracted, against their JSON size |
| `RunBudget.dfy`, `RedirectChains.dfy` | the run budget, and redirect-chain reservations of concurrent browser fetches |
| `HostVerdicts.dfy`, `UrlVerdicts.dfy` | remembered DNS verdicts and single-flight lookups |
| `DomainRateLimiter.dfy`, `RateLimiterCallers.dfy`, `RateLimiterRuns.dfy` | the per-domain limiter, its callers in every interleaving, and whole runs of them |
| `SlidingWindow.dfy`, `PriorityAdmission.dfy` | the HTTP limiter, weighted admission |
| `CircuitBreaker.dfy`, `ThreadPool.dfy` | the circuit breaker, the owned thread pool |
| `ContentCoding.dfy` | stacked content codings undone piece by piece (section 8.4 of RFC 9110) |
| `Globs.dfy`, `TextExcerpts.dfy`, `DomText.dfy` | glob matching, debug excerpts, visible text |
| `TransformPipeline.dfy`, `TransformGrammar.dfy` | the transform splitter, and the grammar of pipelines it splits |
| `Ipv4Hosts.dfy` | browser-style IPv4 hosts (section 3.5 of the WHATWG URL Standard) |
| `IpPolicy.dfy` | the connected-address policy and its firewall rules (section 2.5.5.2 of RFC 4291, section 2.1 of RFC 6052) |
| `AddressNumbers.dfy` | which addresses that policy blocks, as intervals of numbers |
| `Texts.dfy`, `Sums.dfy`, `Ordering.dfy`, `Arithmetic.dfy` | shared vocabulary and lemmas |

## Findings

Four things the code does that its documentation does not say, each with a run that shows it and
the exact condition under which it does not happen.

- Circuit generations restart at 0 when an entry is dropped, so a grant reported twice can close the
  circuit under another caller's probe, and then two callers probe at once
  (`StaleReportOverlapsProbes`). Two grants of a domain are never unreported at once, if and only if
  no check of it is granted after a second report collides with an unreported grant (same domain and
  generation) and before that grant is reported (`OverlapIffGrantedOver`). The collision alone
  already takes the circuit from the grant it hits: every unreported grant is the one its half-open
  circuit waits for, at every point, if and only if there is no collision (`SoundIffNoCollision`).
  Reporting each grant once rules out both (`ProbesNeverOverlap`).
- A caller of the local rate limiter stays counted for good, and its domain can no longer be pruned
  or evicted, when it is cancelled while it waits for the condition in its `finally` block, or inside
  the condition for a lock that is free but promised to a waiter (`LostPlaceIsForGood`,
  `CancelledLeaverStaysCounted`, `CancelledNewcomerStaysCounted`). Counts are exact if and only if
  neither happens (`CountsAreLiveCallers`), and neither happens unless some newcomer has waited
  inside the condition (`NoPlaceLostUnlessInside`).
- Capacity eviction forgets a domain's last request: spacing holds between evictions
  (`GrantsAreSpaced`) and can fail across them (`EvictionLosesSpacing`). A caller whose interval is
  at most the retention keeps it from the last grant if and only if the domain was not evicted since,
  or the interval has passed anyway, or that grant was at or before the clock's zero, which is what
  an unknown domain is taken to have had (`SpacedIffRemembered`).
- Request capacity reserved by a browser route handler after the final settlement, or held by a
  fetch that ends without one, is never returned (`LateReserveIsNeverReturned`,
  `CancelledReleaseIsNeverReturned`). The counter is exact if and only if no handler reserves late and
  every chain a fetch leaves unsettled has used all of its 21 (`CounterIsExactAfterSettlement`).

## Model

| member | source | states |
|---|---|---|
| `JsonEncoding.IterJsonBytes` | src/scrapeyard/common/json_encoding.py:23-63 | Succeeds exactly when the plain encoder and UTF-8 do, and then yields the plain encoding cut every 16384 characters, whatever the walk depth and batches did |
| `JsonEncoding.ChunksSpellTheEncoding` | src/scrapeyard/common/json_encoding.py:23-63 | The chunks concatenate to the UTF-8 of the plain encoding; each is non-empty and all but the last have exactly the chunk size in characters |
| `JsonEncoding.IterJsonText` | src/scrapeyard/common/json_encoding.py:66-98 | At every walk depth the texts concatenate to the plain compact encoding, and it raises exactly when that does |
| `JsonEncoding.ListTexts` | src/scrapeyard/common/json_encoding.py:67-85 | The doubling and restarting batches, bracket-stripped, spell the whole list in order |
| `JsonEncoding.DictTexts` | src/scrapeyard/common/json_encoding.py:86-96 | Walked and whole-encoded entries together spell the dictionary, key conversion included |
| `JsonEncoding.CutIsUnique` | src/scrapeyard/common/json_encoding.py:54-63 | Full pieces and a short rest are the only way to cut a text at the chunk size |
| `JsonEncoding.EncodeItemsAppend` | src/scrapeyard/common/json_encoding.py:72-84 | Encoding two runs of elements and joining them is encoding the concatenated run |
| `JsonEncoding.CompactJsonSize` | src/scrapeyard/common/json_encoding.py:101-128 | Equals the length of the default encoding for every value and depth, and raises exactly when that encoder does |
| `JsonEncoding.DictSize` | src/scrapeyard/common/json_encoding.py:115-127 | The size of a walked dictionary is the length of its encoding |
| `JsonEncoding.DefaultEncodingIsAscii` | src/scrapeyard/common/json_encoding.py:19-20 | The default encoding of every value is ASCII, so characters are bytes |
| `JsonEncoding.CompactJsonBytes` | src/scrapeyard/common/json_encoding.py:131-134 | The joined chunks are the UTF-8 of the default encoding, one byte for each of its characters |
| `JsonReading.EncodingReadsBack` | src/scrapeyard/common/json_encoding.py:39-44 | For every value and option set, what the encoder writes is one JSON text, and a reader with its own escapes, code units and surrogate pairs gets exactly the content of the value back from it |
| `JsonReading.ChunksReadBack` | src/scrapeyard/common/json_encoding.py:23-63 | The yielded chunks, put together, decode as UTF-8 and read back to the content of the data |
| `JsonReading.TextReads` | src/scrapeyard/common/json_encoding.py:39-44 | A written string in front of anything reads back to its characters and leaves the rest; in ASCII output two escaped surrogates in a row are the character they spell |
| `JsonReading.CombinedIffPair` | src/scrapeyard/common/json_encoding.py:39-44 | So in ASCII output a text reads back to itself if and only if no high surrogate in it is directly followed by a low one |
| `JsonReading.ShortestSpelling` | src/scrapeyard/common/json_encoding.py:39-44 | Each character is written in the shortest way that reads back to it, within printable ASCII if asked for, and no other lower-case spelling is as short |
| `JsonReading.EscapeSpells` | src/scrapeyard/common/json_encoding.py:39-44 | What is written for a character reads back to just that character |
| `JsonReading.Utf8Decodes` | src/scrapeyard/common/json_encoding.py:56-63 | The UTF-8 of every text decodes to that text, by a decoder that refuses overlong forms, surrogates and numbers above U+10FFFF |
| `JsonReading.WrittenIff` | src/scrapeyard/common/json_encoding.py:23-63 | Bytes are produced if and only if the value holds no non-finite number or key that is not allowed, no key without a conversion, no value without an encoding and, outside ASCII output, no surrogate |
| `ResultSize.JsonStringSerializedSize` | src/scrapeyard/engine/selectors.py:175-189 | Equals the length of the quoted and escaped string, for every string |
| `ResultSize.ValueBytesAreExact` | src/scrapeyard/engine/selectors.py:139-152 | What a field reserves is its JSON size, except that null reserves 0 instead of 4 |
| `ResultSize.ExtractSelectorValue` | src/scrapeyard/engine/selectors.py:122-152 | The value is the collapsed transformed texts of all matches, and the bytes reserved are its JSON size less 4 when it is null; it fails only if a match raised or is over the size limit, or the budget is exhausted |
| `ResultSize.ExtractSelectorsStrict` | src/scrapeyard/engine/selectors.py:98-119 | The record holds each field in order, and the bytes reserved are its JSON size less 4 for every null field; it fails only if a field does or the budget is exhausted |
| `ResultSize.ExtractRecord` | src/scrapeyard/engine/scraper.py:145-175 | The record's own reservations add up to the larger of its extracted reservation and its final size, plus one; it fails only for those reasons or if enrichment does |
| `ResultSize.ExtractPageData` | src/scrapeyard/engine/scraper.py:128-176 | The page's own reservations are the sum of these, and a non-empty list of records encodes in at most that many bytes plus one; it fails only on an exhausted budget or at the first record that does |
| `ResultSize.PageFits` | src/scrapeyard/engine/scraper.py:167-175 | Brackets and separators of the whole list are covered by the one extra byte per record, but for one |
| `RunBudgets.RunBudget.CheckDeadline` | src/scrapeyard/common/budgets.py:221-227 | A recorded failure is raised again; a passed deadline becomes the recorded failure |
| `RunBudgets.RunBudget.ReserveRequests` | src/scrapeyard/common/budgets.py:152-162 | Takes the amount, or records the overrun and takes nothing; a non-positive amount is refused unchanged |
| `RunBudgets.RunBudget.SettleRequests` | src/scrapeyard/common/budgets.py:164-169 | Gives back reserved less issued, and refuses an invalid settlement unchanged |
| `RunBudgets.RunBudget.CheckFetchedCapacity` | src/scrapeyard/common/budgets.py:236-250 | Compares without taking |
| `RunBudgets.RunBudget.ConsumeFetchedBytes` | src/scrapeyard/common/budgets.py:332-347 | Takes fetched bytes or fails the run |
| `RunBudgets.RunBudget.ReserveExtractedRecords` | src/scrapeyard/common/budgets.py:349-370 | Takes all records of a page or none |
| `RunBudgets.RunBudget.EnforceSerializedResultBytes` | src/scrapeyard/common/budgets.py:372-381 | Compares an exact size with the limit |
| `RunBudgets.RunBudget.ReserveEstimatedResultBytes` | src/scrapeyard/common/budgets.py:383-404 | Takes estimated bytes or fails the run |
| `RunBudgets.RunBudget.ReserveBrowserDebugBytes` | src/scrapeyard/common/budgets.py:406-427 | Grants all, part or nothing, and never fails the run for space |
| `RunBudgets.RunBudget.ReleaseBrowserDebugBytes` | src/scrapeyard/common/budgets.py:429-434 | Returns debug space, never below zero |
| `RunBudgets.CountersAreExactAndBounded` | src/scrapeyard/common/budgets.py:152-169 | Over every sequence of calls no counter passes its limit, and each equals what was accepted less what settlements gave back |
| `RunBudgets.ExhaustionIsFinal` | src/scrapeyard/common/budgets.py:221-234 | Once a limit was exceeded, no later check or reservation is accepted, of debug space either, and no counter grows |
| `RunBudgets.AcceptedIffItFits` | src/scrapeyard/common/budgets.py:152-162 | In every run a reservation is accepted if and only if its amount is valid, no call has raised a budget failure, the deadline has not come, and all that was taken and the amount are within the limit of that kind; it then takes that amount of that kind alone |
| `RunBudgets.OverrunIsRecorded` | src/scrapeyard/common/budgets.py:152-162 | A refusal for want of capacity records the limit and what the count would have come to |
| `RunBudgets.DeadlineIsRecorded` | src/scrapeyard/common/budgets.py:221-227 | A missed deadline records the time the run has taken |
| `RunBudgets.ComparedIffWithin` | src/scrapeyard/common/budgets.py:236-250 | A comparison is accepted, and takes nothing, if and only if the run has not failed, is in time and the size is within its limit |
| `RunBudgets.DebugGrantIsLargest` | src/scrapeyard/common/budgets.py:406-427 | The grant is the largest that fits among those allowed, and no larger one would fit |
| `RunBudgets.DebugReleaseUndoes` | src/scrapeyard/common/budgets.py:406-434 | Releasing a grant restores the budget it was taken from; releasing too much leaves none in use |
| `RedirectChains.ChainRoot` | src/scrapeyard/engine/browser_session.py:144-147 | Follows redirects back to the first request of the chain, and terminates |
| `RedirectChains.FetchAccounting.Reserve` | src/scrapeyard/engine/browser_session.py:681-685 | A chain is opened exactly when the budget grants 21 requests |
| `RedirectChains.FetchAccounting.ObserveRequest` | src/scrapeyard/engine/browser_session.py:710-715 | A redirect counts for its root, if that is open |
| `RedirectChains.FetchAccounting.ReleaseChain` | src/scrapeyard/engine/browser_session.py:699-708 | An open chain becomes one pending settlement of what it issued; any other request changes nothing |
| `RedirectChains.FetchAccounting.ObserveResponse` | src/scrapeyard/engine/browser_session.py:727-729 | A redirect status keeps the chain open, any other releases it |
| `RedirectChains.FetchAccounting.ObserveFailed` | src/scrapeyard/engine/browser_session.py:719-720 | A failed request releases its chain |
| `RedirectChains.TotalIssued` | src/scrapeyard/engine/browser_session.py:889 | The sum of what the open chains issued |
| `RedirectChains.FetchAccounting.FinalSettle` | src/scrapeyard/engine/browser_session.py:886-889 | Settles 21 for each open chain against the sum of what the chains issued |
| `RedirectChains.RunKeepsInv` | src/scrapeyard/engine/browser_session.py:681-717 | Every interleaving of any number of fetches keeps the accounting invariant |
| `RedirectChains.RequestsStayWithinTheLimit` | src/scrapeyard/engine/browser_session.py:681-717 | In every interleaving the counter is what ended chains issued plus 21 for each chain still holding a reservation, stays within max_requests, and bounds the requests actually sent |
| `RedirectChains.EveryRedirectIsCounted` | src/scrapeyard/engine/browser_session.py:699-729 | In every interleaving the open chains of an open fetch are exactly those the browser still works on, and each has counted its request and every redirect the browser followed, on any of the statuses it follows |
| `RedirectChains.SettlementsAreValid` | src/scrapeyard/common/budgets.py:164-169 | The precondition of settle_requests holds at every release and every final settlement |
| `RedirectChains.CounterIsExactAfterSettlement` | src/scrapeyard/engine/browser_session.py:852-889 | Once all fetches have ended the counter equals the requests sent, if and only if no fetch let a request through after its end and none ended without its last settlement while a chain was below 21 |
| `RedirectChains.LateReserveIsNeverReturned` | src/scrapeyard/engine/browser_session.py:681-684 | A run in which it fails: a handler reserves after the last settlement, and 21 stay counted for one request |
| `RedirectChains.CancelledReleaseIsNeverReturned` | src/scrapeyard/engine/browser_session.py:886-889 | Another: a fetch cancelled while it awaits the release of its chain |
| `HostVerdicts.PublicHostVerdicts.IsFresh` | src/scrapeyard/common/host_verdicts.py:44-51 | Tells whether an unexpired verdict exists, and drops an expired one |
| `HostVerdicts.PublicHostVerdicts.Record` | src/scrapeyard/common/host_verdicts.py:53-58 | The host expires one lifetime after its lookup began; at capacity the oldest other verdict goes |
| `HostVerdicts.PublicHostVerdicts.Forget` | src/scrapeyard/common/host_verdicts.py:60-62 | Removes that host alone |
| `HostVerdicts.PublicHostVerdicts.Clear` | src/scrapeyard/common/host_verdicts.py:64-65 | Removes every verdict |
| `HostVerdicts.RecordedMeaning` | src/scrapeyard/common/host_verdicts.py:53-58 | After recording: one verdict for the host with the given expiry, all others old ones, at most the oldest lost and only at capacity, size within bounds |
| `HostVerdicts.WithoutKeepsOthers` | src/scrapeyard/common/host_verdicts.py:60-62 | Forgetting keeps exactly the verdicts of other hosts |
| `HostVerdicts.CheckDropsExpired` | src/scrapeyard/common/host_verdicts.py:44-51 | Asking about a host drops its verdict exactly when it has expired, and no other verdict |
| `UrlVerdicts.RunKeepsInv` | src/scrapeyard/engine/url_verdicts.py:100-202 | Every interleaving of checks, answers, waits, cancellations and pinned lookups keeps the invariant |
| `UrlVerdicts.OneSharedLookupPerHost` | src/scrapeyard/engine/url_verdicts.py:148-169 | A host is in the lookup table exactly while one request resolves it for others, and never two requests do |
| `UrlVerdicts.ChecksAreJustified` | src/scrapeyard/engine/url_verdicts.py:100-122 | In every run each request waits on at most one shared lookup and starts at most one; one that passed had a public answer (or a permitted unresolved one) that was recent or came after it arrived; one that was refused had, at or after its arrival, a non-public answer or an unresolved one it does not permit; a waiter waits on the lookup in the table or can wake |
| `UrlVerdicts.EndsOnItsAnswer` | src/scrapeyard/engine/url_verdicts.py:103-122 | The step that brings a request its answer passes it if and only if the host is public, or unresolved and permitted, and refuses it on any other; its own lost lookup aborts it, a lost shared one makes it go on by itself, and no other step but giving up changes it |
| `UrlVerdicts.BeginsAtTheVerdict` | src/scrapeyard/engine/url_verdicts.py:100-118 | A new request passes at once on a fresh verdict, waits if its host is being looked up, and otherwise looks it up for all that come meanwhile |
| `UrlVerdicts.AbortedIffCutShort` | src/scrapeyard/engine/url_verdicts.py:100-118 | In every run a request is aborted if and only if it came past the deadline, gave up its wait, or its own lookup brought no answer |
| `UrlVerdicts.AnswersAreRemembered` | src/scrapeyard/engine/url_verdicts.py:135-202 | After a public answer the host is fresh exactly until one lifetime after its lookup began; after a refusal it is not fresh; a lost lookup changes no verdict |
| `UrlVerdicts.FreshnessIsSound` | src/scrapeyard/engine/url_verdicts.py:125-145 | A fresh verdict is a public answer whose lookup began less than one lifetime ago, with no refusal of the host processed since |
| `UrlVerdicts.ResultsAreFinal` | src/scrapeyard/engine/url_verdicts.py:158-169 | A shared future gets one result that no later step changes |
| `DomainRateLimiter.LocalDomainRateLimiter.PruneStaleDomains` | src/scrapeyard/engine/rate_limiter.py:115-130 | Removes exactly the expired, idle domains, at most once per retention |
| `DomainRateLimiter.LocalDomainRateLimiter.EnterDomain` | src/scrapeyard/engine/rate_limiter.py:73-104 | One pass of the retry loop: join, take the free lock, create, evict the least recently used idle domain and create, or wait for room |
| `DomainRateLimiter.LocalDomainRateLimiter.EvictIdle` | src/scrapeyard/engine/rate_limiter.py:85-98 | Evicts the idle domain first in (last request, name) order, if any |
| `DomainRateLimiter.LocalDomainRateLimiter.RecordAndRelease` | src/scrapeyard/engine/rate_limiter.py:63-65 | Records the request time and frees the lock |
| `DomainRateLimiter.LocalDomainRateLimiter.LeaveDomain` | src/scrapeyard/engine/rate_limiter.py:66-68 | Gives the caller's place in the count back |
| `DomainRateLimiter.PruneForgetsExactly` | src/scrapeyard/engine/rate_limiter.py:115-130 | A domain is forgotten if and only if a whole retention has passed since the last pruning and since its last request and nobody uses it; the others keep lock, count and time |
| `DomainRateLimiter.VictimIsLeastRecent` | src/scrapeyard/engine/rate_limiter.py:85-98 | Whenever a domain is idle one is evicted, and no idle domain made its last request earlier; one that never made any counts as the latest |
| `DomainRateLimiter.PassOutcome` | src/scrapeyard/engine/rate_limiter.py:73-104 | A pass waits for room if and only if its domain is unknown, the table full and every domain in use; it waits for the lock if and only if that is taken or promised; else it leaves with the lock and one more caller counted |
| `Ordering.BeforeIsByFirstDifference` | src/scrapeyard/engine/rate_limiter.py:85-98 | Names of equal times are ordered by their first differing character, a prefix first |
| `RateLimiterRuns.RunKeepsInv` | src/scrapeyard/engine/rate_limiter.py:49-130 | Every interleaving of calls, waits, grants, departures and cancellations keeps the invariant |
| `RateLimiterRuns.GrantsAreSpaced` | src/scrapeyard/engine/rate_limiter.py:53-63 | Grants to a domain not evicted in between are at least the requested interval apart, for every interval up to the retention, pruning included |
| `RateLimiterRuns.EvictionLosesSpacing` | src/scrapeyard/engine/rate_limiter.py:84-98 | With an eviction in between it fails: a run that grants one domain twice at the same time |
| `RateLimiterRuns.SpacedIffRemembered` | src/scrapeyard/engine/rate_limiter.py:54-62 | In every reachable state and for every interval up to the retention, whoever takes the lock keeps its interval from the domain's last grant if and only if the domain was not evicted since, or the interval has passed anyway, or that grant was at or before time zero |
| `RateLimiterRuns.ForgottenGrantDelaysNobody` | src/scrapeyard/engine/rate_limiter.py:54-62 | In every reachable state, whoever takes the lock of a domain evicted since its last grant may go at once, unless the clock itself is below its interval |
| `RateLimiterRuns.DueOneIntervalLater` | src/scrapeyard/engine/rate_limiter.py:53-62 | In every reachable state whoever takes the lock is due exactly at the later of now and one interval after the last grant the domain had since its last eviction |
| `RateLimiterRuns.OneLockPerDomain` | src/scrapeyard/engine/rate_limiter.py:70-113 | All holders and waiters of a domain share the one lock in the table, at most one holds it, and the table stays within max_domains |
| `RateLimiterRuns.TakenIffHeld` | src/scrapeyard/engine/rate_limiter.py:53-82 | In every run, however callers are cancelled, a domain lock is taken if and only if a caller holds it |
| `RateLimiterRuns.CountsAreLiveCallers` | src/scrapeyard/engine/rate_limiter.py:64-113 | The reference count is never below the live callers, and equals them if and only if no caller of the domain was cancelled while it waited for the condition to give its place back, or inside the condition for a free lock |
| `RateLimiterRuns.LostPlaceIsForGood` | src/scrapeyard/engine/rate_limiter.py:66-130 | After such a cancellation, in every further run, the domain stays in the table, is never idle and so is never pruned or evicted, and its count exceeds its live callers |
| `RateLimiterRuns.NoPlaceLostUnlessInside` | src/scrapeyard/engine/rate_limiter.py:73-113 | In every run in which nobody waits inside the condition, no place is lost |
| `RateLimiterRuns.CancelledLeaverStaysCounted` | src/scrapeyard/engine/rate_limiter.py:64-68 | A run that reaches the first of these cancellations: a caller has made its request and queues for the condition in its finally block, while another waits inside it |
| `RateLimiterRuns.CancelledNewcomerStaysCounted` | src/scrapeyard/engine/rate_limiter.py:76-82 | A run that reaches the second: the sleeping holder has released the lock to a waiter that has not run yet, and a newcomer waits for it inside the condition |
| `CircuitBreakers.CircuitBreaker.Check` | src/scrapeyard/engine/resilience.py:264-282 | Admits closed work, grants the probe of an open circuit after its cooldown, or rejects with the cooldown left |
| `CircuitBreakers.CircuitBreaker.RecordSuccess` | src/scrapeyard/engine/resilience.py:284-302 | Drops a closed history, or a half-open circuit on its own probe only |
| `CircuitBreakers.CircuitBreaker.RecordFailure` | src/scrapeyard/engine/resilience.py:304-334 | Counts, trips at the threshold, reopens on its own probe, and gives up rather than evict a blocked circuit |
| `CircuitBreakers.CircuitBreaker.AbortProbe` | src/scrapeyard/engine/resilience.py:336-348 | Reopens with the cooldown already over, on its own probe only |
| `CircuitBreakers.CircuitBreaker.PruneInactiveClosed` | src/scrapeyard/engine/resilience.py:358-368 | Removes exactly the closed circuits unused for the whole lifetime |
| `CircuitBreakers.CircuitBreaker.MakeRoomForClosedState` | src/scrapeyard/engine/resilience.py:370-382 | At capacity evicts the closed circuit first in (last access, domain) order, if any |
| `CircuitBreakers.OthersLeaveIt` | src/scrapeyard/engine/resilience.py:358-382 | Pruning, eviction and calls about other domains never touch an open or half-open circuit |
| `CircuitBreakers.OneProbeUntilReported` | src/scrapeyard/engine/resilience.py:275-282 | From the grant of a probe until its report, over any calls, the circuit stays half-open for it and every check of the domain is rejected |
| `CircuitBreakers.CooldownHolds` | src/scrapeyard/engine/resilience.py:275-282 | Until the cooldown since opening has passed, no sequence of calls gets a check admitted |
| `CircuitBreakers.ProbeAfterCooldown` | src/scrapeyard/engine/resilience.py:275-282 | An open circuit grants its probe exactly when the cooldown has passed |
| `CircuitBreakers.ReportSettlesProbe` | src/scrapeyard/engine/resilience.py:296-348 | The probe's success closes the circuit, its failure opens it from now, its abort lets the next check probe at once |
| `CircuitBreakers.UnblockedOnlyByItsProbe` | src/scrapeyard/engine/resilience.py:284-348 | A blocked circuit stops being blocked exactly on the success of the probe it waits for |
| `CircuitBreakers.NeverAdmittedUnlessProbed` | src/scrapeyard/engine/resilience.py:264-348 | Over any run without such a success, no check of the domain is admitted as ordinary work |
| `CircuitBreakers.SoundIffNoCollision` | src/scrapeyard/engine/resilience.py:264-395 | In every run from an empty table, at every point each unreported grant is the one its half-open circuit waits for and no domain has two, if and only if no grant is reported a second time while another unreported one has its domain and generation |
| `CircuitBreakers.OverlapIffGrantedOver` | src/scrapeyard/engine/resilience.py:264-395 | In every run from an empty table, two grants of one domain are never unreported at once, if and only if no check of the domain is granted after a second report collides with an unreported grant and before that grant is reported |
| `CircuitBreakers.ProbesNeverOverlap` | src/scrapeyard/engine/resilience.py:264-395 | In every run that reports each grant at most once, a domain never has two unreported grants, and every check of a domain with one is rejected |
| `CircuitBreakers.ReportCountsByGeneration` | src/scrapeyard/engine/resilience.py:284-348 | A report changes an open or half-open circuit if and only if it is half-open in the generation of the reported probe, whoever reports and however often |
| `CircuitBreakers.StaleReportOverlapsProbes` | src/scrapeyard/engine/resilience.py:302-318 | The condition can fail: generations restart at 0, so a second report of an old grant closes the circuit under a new one, and a third caller is granted while the second has reported nothing |
| `CircuitBreakers.TableStaysBounded` | src/scrapeyard/engine/resilience.py:311-319 | The table stays within max_domains and closed circuits stay below the threshold |
| `CircuitBreakers.TripsAtTheThreshold` | src/scrapeyard/engine/resilience.py:329-334 | The given number of consecutive failures opens the circuit, fewer do not |
| `CircuitBreakers.ClosedCountsInARow` | src/scrapeyard/engine/resilience.py:284-334 | In every run a circuit that is not blocked counts its failures since the last of its success, its expiry and its eviction, and that is below the threshold |
| `CircuitBreakers.OpensExactlyAtTheThreshold` | src/scrapeyard/engine/resilience.py:329-334 | In every run the next call opens such a circuit if and only if it makes the threshold of failures in a row, and it is then open since that call |
| `CircuitBreakers.OthersLeaveClosed` | src/scrapeyard/engine/resilience.py:358-382 | Calls about other domains remove a closed circuit if and only if it has expired or comes first for eviction at capacity, and never change it otherwise |
| `CircuitBreakers.RoomMadeMeans` | src/scrapeyard/engine/resilience.py:370-382 | Making room removes exactly the closed circuit that comes first in (last access, domain) order, and only at capacity |
| `IpPolicy.CollectEmbedded` | src/scrapeyard/engine/ip_policy.py:84-97 | The embedded endpoints of an IPv6 address, in order |
| `IpPolicy.BuildFirewallEntries` | src/scrapeyard/engine/ip_policy.py:126-145 | The ordered entries: exceptions, denials, and the embedded denials of each compiled prefix |
| `IpPolicy.EmbedMeans` | src/scrapeyard/engine/ip_policy.py:112-123 | A compiled block holds exactly the addresses of its /96 prefix whose last 32 bits the IPv4 block holds |
| `IpPolicy.FirewallMeans` | src/scrapeyard/engine/ip_policy.py:126-145 | What first-match evaluation of the whole list drops, for every address |
| `IpPolicy.FirewallAgreesWithCheck` | src/scrapeyard/engine/ip_policy.py:100-145 | For any lists that subsume what is not compiled, firewall and check agree on every address |
| `IpPolicy.ReviewedSubsumes` | src/scrapeyard/engine/ip_policy.py:25-81 | The reviewed lists deny all of 6to4, Teredo and the local translation prefix outside the exceptions |
| `IpPolicy.ReviewedFirewallAgrees` | src/scrapeyard/engine/ip_policy.py:25-145 | For every 32-bit and 128-bit address, first-match evaluation of firewall_policy_entries with default allow drops exactly what ip_is_blocked blocks |
| `AddressNumbers.BlockedV4InNumbers` | src/scrapeyard/engine/ip_policy.py:36-109 | An IPv4 address is blocked, by the check and by the firewall, if and only if its number is in one of fifteen intervals, written out |
| `AddressNumbers.BlockedV6InNumbers` | src/scrapeyard/engine/ip_policy.py:25-145 | An IPv6 address is blocked, by both, if and only if it is outside the seven public exceptions, and in one of fourteen intervals or in ::ffff:0:0/96 or 64:ff9b::/96 with a denied IPv4 number in its last bits |
| `AddressNumbers.MappedSpells` | src/scrapeyard/engine/ip_policy.py:88-89 | ::ffff:0:0/96 spells the IPv4 address in its last 32 bits |
| `AddressNumbers.SixToFourSpells` | src/scrapeyard/engine/ip_policy.py:90-91 | 2002::/16 spells the IPv4 address in the 32 bits after its prefix |
| `AddressNumbers.TeredoSpells` | src/scrapeyard/engine/ip_policy.py:92-93 | 2001::/32 spells its server and the complement of its last 32 bits, in that order |
| `AddressNumbers.NoOtherTunnels` | src/scrapeyard/engine/ip_policy.py:84-97 | No address outside these three blocks spells a tunnel endpoint |
| `TransformPipeline.SplitTransformPipeline` | src/scrapeyard/config/transforms.py:80-138 | Returns the stripped text between top-level pipes, or raises on an open quote, parenthesis or class; the scan terminates |
| `TransformPipeline.ReadPrefix` | src/scrapeyard/config/transforms.py:90-100 | The prefix read at a step's start decides its whole scan |
| `TransformPipeline.NothingIsLost` | src/scrapeyard/config/transforms.py:127-138 | The unstripped pieces rejoined with pipes are the input, and there is one step more than top-level pipes |
| `TransformPipeline.StepsSplitToThemselves` | src/scrapeyard/config/transforms.py:80-138 | Splitting any returned step again yields just that step |
| `TransformPipeline.PiecesLieBetweenPipes` | src/scrapeyard/config/transforms.py:127-138 | The pieces are exactly the text between consecutive top-level pipes |
| `TransformGrammar.StepsReadBack` | src/scrapeyard/config/transforms.py:20-138 | Steps of a grammar (words; calls with nested parentheses and quoted arguments with doubled quotes; patterns with classes and groups; backslash pairs everywhere), written out and joined with pipes, split back to exactly those steps, stripped; if the last is cut off inside a quote, class or parenthesis the split raises |
| `TransformGrammar.StrippedStepsReadBack` | src/scrapeyard/config/transforms.py:80-138 | Steps without outer white space come back as they were written |
| `TransformGrammar.EveryTextIsAPipeline` | src/scrapeyard/config/transforms.py:80-138 | Every text is such steps joined with pipes, the last perhaps cut off |
| `TransformGrammar.RaisesIffCutOff` | src/scrapeyard/config/transforms.py:130-136 | The split raises if and only if the text is such steps whose last one ends inside a quote, a class or a parenthesis |
| `ContentCoding.ContentDecoder.Decode` | src/scrapeyard/engine/content_coding.py:167-168 | One chunk through the first coding, every piece passed on through the later ones at once |
| `ContentCoding.ContentDecoder.Flush` | src/scrapeyard/engine/content_coding.py:170-172 | Each coding flushed in order, its last pieces through the later ones |
| `ContentCoding.ContentDecoder.RunThrough` | src/scrapeyard/engine/content_coding.py:174-181 | Pieces are marked kept only after the last coding, and stop where a coding raises |
| `ContentCoding.ContentDecoder.DecodeBody` | src/scrapeyard/engine/basic_fetch.py:246-262 | For every chunking: raises exactly when coding-by-coding decoding does; otherwise the same body, and the bytes charged are all stages' outputs |
| `ContentCoding.InputIsFeed` | src/scrapeyard/engine/content_coding.py:167-181 | Feeding a coding piece by piece and passing on at once is feeding it everything and then passing on |
| `ContentCoding.OneCodingToItsEnd` | src/scrapeyard/engine/content_coding.py:170-181 | Input and flushes from a coding on pass on exactly what that coding yields when run alone to its end |
| `ContentCoding.InterleavedIsStaged` | src/scrapeyard/engine/content_coding.py:154-181 | Interleaved decoding equals running each coding to completion before the next, for any stateful codings |
| `ContentCoding.UncodedPassesAsItCame` | src/scrapeyard/engine/content_coding.py:51-58 | A body without a coding comes out as its non-empty chunks in order, each charged once |
| `Globs.GlobMatches` | src/scrapeyard/engine/subrequest_filter.py:11-32 | True exactly when strings for the stars exist that make the parts spell the whole text |
| `Globs.GreedyStep` | src/scrapeyard/engine/subrequest_filter.py:25-31 | Taking the leftmost place of a middle part loses no match |
| `Globs.MatchIsMiddle` | src/scrapeyard/engine/subrequest_filter.py:18-25 | A match is a fixed start, a fixed end and the other parts in order between them |
| `TextExcerpts.TruncateText` | src/scrapeyard/engine/browser_debug.py:510-527 | Equals the words of the whole text, one blank apart, cut to the limit, for every text and limit; at most limit characters when that is at least 3; the loop terminates |
| `TextExcerpts.ExcerptMeans` | src/scrapeyard/engine/browser_debug.py:524-527 | Within the limit the text is kept whole; a longer one is cut to exactly the limit with three dots; below three it loses as many characters from its end as the limit lacks, before the dots |
| `TextExcerpts.NormalIsJoinedWords` | src/scrapeyard/engine/browser_debug.py:520-524 | Collapsing and stripping the whole text is joining its words with single blanks |
| `TextExcerpts.PrefixCollapses` | src/scrapeyard/engine/browser_debug.py:513-515 | Collapsing a prefix yields a prefix of the collapsed whole, also after stripping on the left |
| `TextExcerpts.PrefixDecides` | src/scrapeyard/engine/browser_debug.py:518-523 | A prefix that keeps more than limit + 1 characters decides the result |
| `ThreadPools.OwnedThreadPool.Submitted` | src/scrapeyard/common/run_threads.py:76-84 | A failed submission gives its slot back, another is counted active |
| `ThreadPools.OwnedThreadPool.Cancelled` | src/scrapeyard/common/run_threads.py:107-114 | Work not done becomes lingering, work done does not |
| `ThreadPools.OwnedThreadPool.ReleaseSlot` | src/scrapeyard/common/run_threads.py:86-94 | The callback leaves the active count, and the lingering one if it was in it |
| `ThreadPools.RunKeepsInv` | src/scrapeyard/common/run_threads.py:64-114 | Every interleaving of submissions, completions, callbacks, cancellations and loop shutdown keeps the invariant |
| `ThreadPools.CountersAreExact` | src/scrapeyard/common/run_threads.py:64-114 | 0 <= lingering <= active <= max_workers; lingering is the number of abandoned tasks whose callback has not run; every slot not free is held by one task |
| `ThreadPools.SlotsReturnOnce` | src/scrapeyard/common/run_threads.py:86-99 | A slot is given back at most once, and only after its work is done or could not be submitted |
| `ThreadPools.SlotCanComeBack` | src/scrapeyard/common/run_threads.py:86-101 | While the loop is open, a task holding a slot can always step nearer to giving it back, cancelled or not |
| `ThreadPools.EverythingComesBack` | src/scrapeyard/common/run_threads.py:64-114 | Once all tasks have given their slots back the pool is as at the start |
| `ThreadPools.CancellationKeepsTheSlot` | src/scrapeyard/common/run_threads.py:105-114 | Until its work is done a cancelled task keeps its slot |
| `SlidingWindows.RateLimiter.RecordOrReject` | src/scrapeyard/api/middleware.py:172-195 | The new table and the answer: admission, the wait until the oldest recent admission leaves the window, or the least expiry when saturated, which is always defined |
| `SlidingWindows.RateLimiter.PruneExpiredKeys` | src/scrapeyard/api/middleware.py:197-204 | Removes exactly the keys whose last admission left the window, at most once per window |
| `SlidingWindows.DropExpired` | src/scrapeyard/api/middleware.py:188-189 | Drops exactly the leading expired admissions |
| `SlidingWindows.PruneForgetsExactly` | src/scrapeyard/api/middleware.py:197-204 | A key is forgotten if and only if a whole window has passed since the last pruning and none of its admissions is in the window |
| `SlidingWindows.DecisionIsByWindow` | src/scrapeyard/api/middleware.py:172-195 | The decision is that of a limiter that remembers everything; a known key is never refused for want of room |
| `SlidingWindows.PruningChangesNoDecision` | src/scrapeyard/api/middleware.py:197-204 | For a key in the table, pruning first or not at all decides the same |
| `SlidingWindows.RunKeepsInv` | src/scrapeyard/api/middleware.py:172-204 | Every run keeps each bucket the end of its key's admissions, lacking nothing still in the window |
| `SlidingWindows.AdmissionsStayWithinTheLimit` | src/scrapeyard/api/middleware.py:191-195 | Over every run of monotone times each key has at most the limit of admissions in every window, the table stays within max_keys and holds no empty bucket |
| `SlidingWindows.RefusedOnlyWhenFull` | src/scrapeyard/api/middleware.py:177-192 | An unsaturated refusal happens exactly when the window holds the limit, and a saturated one only for an unknown key and a full table |
| `SlidingWindows.RetryAfterIsExact` | src/scrapeyard/api/middleware.py:191-192 | The wait of an unsaturated refusal is exactly the time until the key is below its limit again |
| `PriorityAdmission.WeightedPriorityPolicy.SelectionOrder` | src/scrapeyard/queue/priority.py:38-42 | The turn's own priority, then the others from the highest down |
| `PriorityAdmission.WeightedPriorityPolicy.Admitted` | src/scrapeyard/queue/priority.py:44-47 | Advances the turn by one around the cycle of seven |
| `PriorityAdmission.WeightedPriorityPolicy.AdmitOne` | src/scrapeyard/queue/pool.py:304-322 | Admits from the preferred queue if it has work, else from the highest that has, and advances only on an admission |
| `PriorityAdmission.FairTurnThenHighest` | src/scrapeyard/queue/priority.py:10-47 | Of the seven turns four are for high, two for normal and one for low; a priority is chosen if and only if it has work and is the turn's own, or the turn's own has none and no higher one has |
| `PriorityAdmission.SharesOfSeven` | README.md:236-243 | A priority that stays non-empty gets at least 4, 2 or 1 of any seven consecutive decisions from any cursor, and exactly that when all stay backlogged |
| `PriorityAdmission.StartsInTurn` | README.md:236-243 | A waiting delivery starts, in its place, within the cycles whose share covers its position |
| `PriorityAdmission.LowStartsWithin` | README.md:236-243 | The k-th waiting low delivery starts within 7k decisions |
| `Ipv4Hosts.HostParts` | src/scrapeyard/engine/url_guard.py:225-229 | The parts between dots, without one empty part at the end |
| `Ipv4Hosts.EndsInANumber` | src/scrapeyard/engine/url_guard.py:232-237 | True exactly when the last part is decimal digits, or hexadecimal digits after 0x |
| `Ipv4Hosts.LegacyIpv4Address` | src/scrapeyard/engine/url_guard.py:240-262 | The value read, below 2^32, or nothing |
| `Ipv4Hosts.ReadIsDenotes` | src/scrapeyard/engine/url_guard.py:240-262 | A host is read as n if and only if it is one to four numerals between dots, with an optional dot after them, whose values are in range and make n |
| `Ipv4Hosts.NumeralReadsBack` | src/scrapeyard/engine/url_guard.py:208-222 | Every decimal, octal and hexadecimal numeral reads as its value |
| `Ipv4Hosts.DigitValues` | src/scrapeyard/engine/url_guard.py:208-222 | The digits are ten of decimal and six letters of either case, with their values |
| `Ipv4Hosts.NumbersAreNumerals` | src/scrapeyard/engine/url_guard.py:208-222 | Only those are read |
| `Ipv4Hosts.NumericOrRefused` | src/scrapeyard/engine/url_guard.py:249-250 | A host that does not end in a number is never read as an address |
| `Ipv4Hosts.PartsRejoin` | src/scrapeyard/engine/url_guard.py:225-229 | Joining the parts gives the host back up to one dot at its end |
| `Ipv4Hosts.RoundTrip` | src/scrapeyard/engine/url_guard.py:240-262 | For every 32-bit n, every cut into one to four parts and every radix per part, with or without a last dot, the printed spelling reads as n |
| `DomText.VisibleTextSegments` | src/scrapeyard/engine/dom_text.py:48-69 | The stack traversal yields exactly the recursive document-order segments, and runs empty |
| `DomText.SegmentsAreTextOutsideHidden` | src/scrapeyard/engine/dom_text.py:48-69 | The segments are the text a reader of the document meets, in order, outside any script or style |
| `DomText.HiddenMeans` | src/scrapeyard/engine/dom_text.py:57-60 | A node is hidden if and only if its tag, after its last closing brace, spells script or style in any case |
| `DomText.PushChildren` | src/scrapeyard/engine/dom_text.py:65-69 | Children and tails are pushed so that they come off in document order |

## Left out

- Generators are modelled by the whole sequence they yield; laziness and the points of suspension inside one generator are not.
- JSON values: cyclic values, and `default` callables other than `str` and none, are not represented; floats, dates and other leaf values carry the text the encoder gives them; numbers, literal names and converted keys are any non-empty run of letters, digits, `+`, `-` and `.`, as all that Python writes there are.
- JsonReading: the reader takes text without insignificant white space, which is all the compact encoder writes, and does not check the grammar of numbers. A repeated name is kept, not merged.
- RedirectChains: traffic and asset-cache bookkeeping, and fetches without a budget, are not part of this model. The browser is trusted to follow at most 20 redirects per chain, each only after a response whose status the Fetch Standard calls a redirect status, to follow every such response or fail its request, and to answer a request once. Events of a page that could not be stopped, after its fetch has ended, are not modelled.
- UrlVerdicts: URLs whose hostname was not scanned appear only as refusals that clear the table; runs without a budget and the lexical checks are left out.
- RateLimiterCallers: the order of the condition's queue and of a lock's queue is not modelled: whoever is in one may go next when it is free. A parked caller may retry at any time, and one that is due at once may be interrupted before its request, which the code never does; so the model has more runs than the code. Metrics are left out.
- CircuitBreakers.ProbesNeverOverlap: assumes that each grant is reported at most once, because it is false otherwise; OverlapIffGrantedOver and SoundIffNoCollision have the exact conditions. Both assume that a report carries the probe of a grant of the same run.
- RunBudgets.ExhaustionIsFinal: a call is one step. Extraction runs on worker threads, and a thread that has passed its deadline check may still add to its own counter after another thread or the event loop recorded the failure; that one late addition, which still respects its own limit, is not modelled.
- ResultSize.ExtractPageData: the statement about the shared counter holds while no other target extracts; the one about the page's own reservations does not depend on that.
- SlidingWindows.RateLimiter.RecordOrReject: the wait of a saturated refusal is stated as the least expiry, not as sufficient, because pruning is gated and the room may be gone by then. Header parsing and key hashing are left out.
- PriorityAdmission: each queue is a sequence of live deliveries taken from the front; that the Redis sorted set yields them in that order, its removal of orphans, and deliveries scheduled for later are not modelled.
- ContentCoding: the real decompressors are any stateful decoders; the parsing of `Content-Encoding` and the limit on the number of codings are left out. When a coding raises, only that both forms raise is stated, not what was charged before.
- ThreadPools: what the work and `on_cancel` do, the semaphore's queue of waiters and the metrics are left out.
- TextExcerpts, TransformPipeline: white space and word characters are abstract classes of characters.
- DomText: `str.lower` is modelled on ASCII letters, which decides membership in `script` and `style` alike; the fallback for objects that are not lxml nodes is left out.
- Ipv4Hosts: Python's limit on the number of decimal digits `int` converts is not modelled.
- IpPolicy: networks are numbers; rendering them as CIDR text is left out.
- The Redis limiters and guards, job store, scheduler, webhooks, HTTP routes, settings, page driving, fetch classification, stock and price detection, redaction and the operational scripts are not modelled.
