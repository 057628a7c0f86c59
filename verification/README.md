# The v2proxy daemon's protocols, modelled and proved

`v2proxy/` runs N instances. Each owns a child proxy process and a pool of upstream
configs, and all of them fail over while subscriptions refresh, health checks tick and
clients talk. This project models the parts where that is hard and proves what they keep.

Two shapes are used. Code that runs concurrently is a *step system*: a state, the steps
that goroutines and the outside world can take from it, an invariant that every step
keeps, and theorems about every run. Code that runs under one lock is a *class* (or a
method with a loop) whose contract ties its new state to its old one; where such code is
one side of a protocol, each of its actions is also a step of the step system.

| file | what it models |
|---|---|
| `Pool.dfy` | configs, keys, deduplication |
| `Health.dfy` | probe verdicts, the n-way probe race |
| `Egress.dfy` | the byte ledger and the serving-socket clock |
| `ProcTable.dfy`, `Sockets.dfy` | parsing `/proc/net/tcp`, counting foreign connections |
| `Ledger.dfy` | the populate ledger under any number of workers and rounds |
| `Search.dfy` | the parallel candidate search with its throwaway children |
| `SelectorState.dfy`, `SelectorRuns.dfy` | what each locked section does to one selector; all their interleavings |
| `Populate.dfy` | `probeShared` as an object, and the trail that a pass over the pool leaves in it |
| `Selector.dfy`, `SelectorHistory.dfy` | `ProxySelector` as an object; whatever is called on it is a run of the step system |
| `Passes.dfy`, `Fleet.dfy` | what a pass over the fleet does, as values; the manager that does it: health, refresh, retain, rotate, recover |
| `FleetRuns.dfy` | what whole passes keep, told from their turns; fleets in which they go wrong |
| `Recovery.dfy` | a refresh whose instances recover, switch and retain in parallel |
| `Watchdog.dfy` | the orphan prune against launching children, with a clock |
| `CheckCache.dfy`, `CheckRuns.dfy`, `CheckServer.dfy` | the `/check` cache as an object; single-flight over runs; a request as both at once |
| `Bridge.dfy` | connection slots, the bounded dial |
| `Relay.dfy` | the two relay loops of a tunnel, the body copy of a plain exchange |
| `Aggregate.dfy` | the failover ladder and the walk down it |
| `Breaker.dfy` | the source circuit breaker, as written and as documented |

The outside world enters as parameters: what a launch, a bind, a probe, a dial or a scan
would come to (`SwapWorld`, `ProbeWorld`, `World`, `Candidate`, ...), and the clock as a number that
does not go back. Time is in milliseconds.

## Where the code departs from its comments

The model follows the code. Each departure is stated with the exact condition under
which the comment holds, or with a run on which it does not.

- `v2proxy/manager.go:111` tests whether a rest was ever set, not whether any is left, so
  a failed probe does not re-arm the breaker (67-68). `Breaker.DocumentedRuleKeptIff` gives
  the exact runs on which nobody notices; `Breaker.FailedProbeDoesNotRearm` is one on which
  a dead source is fetched where it should rest.
- `v2proxy/httpproxy.go:284` releases the CONNECT slot when the handler returns, before
  the tunnel it spliced has ended (270-275, 317-318). `Slots.LiveTunnelHoldsSlotIff`, `Slots.AnyNumberOfTunnels`.
- `v2proxy/urlcheck.go:358-367` joins a flight of any depth, against 80-83. `CheckRuns.JoinedDepthIff`,
  `CheckRuns.ShallowAnswerToDeepRequest`.
- `v2proxy/selector.go:396-403` looks for a bad mark before it claims, so a config that just
  failed elsewhere can be probed again, while the first child on it is still being stopped.
  `Ledger.BadProbeMeansLateMark`, `Ledger.RejectedKeyIsProbedAgain`.
- `v2proxy/selector.go:461-471` does not count throttled candidates. `Selector.ProxySelector.StartShared`:
  the retry pass follows exactly if the first adopted nobody and found somebody bad when it
  looked or silent when it probed. `Populate.ThrottledAloneIsNotRetried`: a pool of throttled
  candidates, with nothing marked bad, is never retried, though every one of them is unproven.
- `v2proxy/manager.go:682-690` looks for its new key in the very map the switch was told to
  avoid, so that branch is dead (`Fleet.ProxyManager.RecoverInstance`) and does not keep parallel
  recoveries apart. `Recovery.RecoveriesCollideIff`: two instances end on one key if and only if
  both switched to it or retained it, and each had looked at the other before the other did.
  `Recovery.ParallelRecoveryCollides` is such a run.
- `v2proxy/aggregate.go:29-30` says that a black-holed head burns the whole budget. It burns
  its own share of it: `Aggregate.FirstSevenAreReached`, `Aggregate.SevenHangsUseUpTheBudget`.
- `v2proxy/manager.go:806-808` leaves the status "ok" when a slow rotation fails.
  `Fleet.ProxyManager.ReconcileActive`: the instance is then without a child exactly if the winner
  was still in the pool, did not come up, and the old upstream did not come back either.
  `FleetRuns.RotationCanStrand` is such a rotation, with all that the code asks for before it rotates.
- `v2proxy/manager.go:62-68` counts a rest in refreshes; the code counts it in askings, and a
  source that is in both lists of `v2proxy/main.go:64-65` is asked for twice a refresh. `Breaker.CopiesShareTheRest`.
- `v2proxy/selector.go:215-217` does not say when a config may be retained. `SelectorRuns.ConsistentIffRetainsFit`: a
  run keeps index and child together if and only if each retained config is what the live child runs.
  `SelectorRuns.LateRetainMixesUpKeys` is a run, with the refresh that makes the code retain, that does not.
- `v2proxy/selector.go:594-595` says that the first proven winner stops the search. It does not: a worker
  that wins leaves, and the others go on. `Search.SearchGoesOn`: within the budget the search ends only
  once every candidate was probed or every worker has a winner of its own.
- `v2proxy/manager.go:248-261` shows the owners of keys by their index, so a child whose index a refresh has
  dropped is hidden. `FleetRuns.PassKeepsChildrenApartIff`: over a pass no two children run one upstream
  if and only if no turn leaves a child on what a hidden one runs. `FleetRuns.HiddenChildIsAdopted` is two
  refreshes of a healthy fleet after which two do.
- A probe race is not order-free when every leg fails: whether that is a strike depends on
  who answers first, unless all legs agree. `Health.FailureIsOrderFreeIff`.

## Model

| member | source | states |
|---|---|---|
| Ledger.StepInv | v2proxy/selector.go:265-480 | every step of every worker, and every new round, keeps: claims are exactly what is held, `used` records every adoption under its one owner, keys of earlier rounds are out of reach, bad marks only grow within a round |
| Ledger.ClaimsAreExclusive | v2proxy/manager.go:472-511 | in every reachable state, over all rounds, the claimed set is exactly the keys now probed or adopted this round, no key is held by two workers, and "taken by another instance" never happens |
| Ledger.AdoptionsAreDistinct | v2proxy/manager.go:487-499 | a key adopted in any round is neither adopted nor probed by anybody else ever after |
| Ledger.WonKeyIsUnused | v2proxy/manager.go:487-493 | a worker that won a key never finds it recorded already |
| Ledger.BadProbeMeansLateMark | v2proxy/selector.go:396-403 | when a first-pass worker probes a bad key, the mark landed after that worker looked |
| Ledger.RejectedKeyIsProbedAgain | v2proxy/selector.go:396-411 | a concrete run in which one worker rejects a key and another probes it while the first is still stopping its child |
| Search.StepInv | v2proxy/selector.go:684-726 | every step of feeder, workers, context and temp-port lock keeps the books: each candidate handed over is in one worker's hands or settled once |
| Search.SearchIsSoundAndComplete | v2proxy/selector.go:684-726 | for every worker count and schedule a returned winner is a candidate whose probe worked, and no winner means that the budget expired or every candidate was probed and failed |
| Search.SearchGoesOn | v2proxy/selector.go:690-726 | a search that ends within its budget skipped nobody, and has probed every candidate unless every single worker won |
| Search.ThrowawayChildrenBounded | v2proxy/selector.go:814-890 | live throwaway children are at most the workers, at most one of them is not registered (and its worker holds the lock), and none is left when the search returns |
| Search.SomeProgress | v2proxy/selector.go:712-724 | some goroutine can always move until all is over, even when every worker has won and left the feeder with a job in hand |
| Search.RunsAreBounded | v2proxy/selector.go:684-726 | every schedule is finite: each step uses up work |
| Search.SearchCandidates | v2proxy/selector.go:684-726 | a search under a randomly drawn schedule comes back, and its answer is that of a complete run |
| SelectorState.RefreshedInv | v2proxy/selector.go:231-245 | a pool swap keeps index, child and key consistent, and keeps the active key exactly if the new pool has it |
| SelectorState.RetainedInvIff | v2proxy/selector.go:218-229 | retaining keeps the invariant if and only if the child still runs the retained key |
| SelectorState.SwappedOutcome | v2proxy/selector.go:612-650 | the locked half of a switch ends with the winner serving, with nothing touched, with the old key restarted, or with no child, and says when each |
| SelectorState.SwappedInv | v2proxy/selector.go:612-679 | that half, restore included, keeps the selector consistent |
| SelectorState.AtMostOneChild | v2proxy/selector.go:750-778 | a consistent selector has at most one serving child |
| SelectorState.RefreshesKeepKeyOrDropIt | v2proxy/selector.go:231-245 | any number of pool swaps leaves the child alone and either keeps the active key or drops the index |
| SelectorRuns.StepInv | v2proxy/selector.go:218-245 | every locked section keeps index, pool, handle and child consistent, with refreshes and other switches anywhere inside a search, as long as a retained config is what the live child runs |
| SelectorRuns.SelectorIsAlwaysConsistent | v2proxy/selector.go:565-679 | in every state with the lock free of a run whose retains fit, the index is -1 or in range, at most one child is live and named by the handle, and it runs the active config's key |
| SelectorRuns.ConsistentIffRetainsFit | v2proxy/selector.go:218-229 | for every run: consistent throughout if and only if every retained config is what the live child, if any, runs at that moment |
| SelectorRuns.CleanRetainFits | v2proxy/manager.go:646-674 | a retain fits whenever no switch landed since its argument was read |
| SelectorRuns.CountersAreHistory | v2proxy/selector.go:482-535 | in every run, through refreshes, retains, switches that succeed, restore or fail, and child deaths, the two counters are folds of the run; inconclusive ticks change neither |
| SelectorRuns.FailsIffThirdStrike | v2proxy/selector.go:524-534 | at any point of any run, a check of a valid active config fails exactly when it is a strike and at least three fell since the last success, passive proof or fresh child |
| SelectorRuns.CommitOutcome | v2proxy/selector.go:565-650 | whatever happened since its snapshot, a switch ends in one of four outcomes; a winner is a key of both pools and not excluded, and since it is not the old position, in a pool of distinct keys it is not the old key |
| SelectorRuns.LateRetainMixesUpKeys | v2proxy/manager.go:646-726 | capture, snapshot of a switch, a refresh that makes the captured config absent, the swap, the retain: it does not fit, and index and child then name different keys |
| Populate.ProbeShared.constructor | v2proxy/selector.go:271-273 | a fresh ledger is a new round of the same history |
| Populate.ProbeShared.IsBad | v2proxy/selector.go:275-283 | tells exactly whether the key is marked bad |
| Populate.ProbeShared.MarkBad | v2proxy/selector.go:285-294 | adds the mark; it is the Reject step of the ledger |
| Populate.ProbeShared.TryClaim | v2proxy/selector.go:296-309 | succeeds exactly if the key is unclaimed; it is the Claim or the LoseClaim step of the ledger |
| Populate.ProbeShared.Unclaim | v2proxy/selector.go:311-318 | gives the claim back; it is the Release step of the ledger |
| Selector.SwitchOrder | v2proxy/selector.go:546-563 | every index but the old one, once, in cyclic order from the start index; also when nothing was ever active |
| Selector.ProxySelector.constructor | v2proxy/selector.go:82-94 | a new selector is consistent |
| Selector.ProxySelector.UpdateConfigs | v2proxy/selector.go:231-245 | swaps the pool and re-anchors the index by key |
| Selector.ProxySelector.RetainActive | v2proxy/selector.go:218-229 | re-anchors to the key, or puts the config at the head |
| Selector.ProxySelector.StartXray | v2proxy/selector.go:750-778 | bad index and render errors touch nothing; otherwise the old child is stopped first, and a launch resets the socket clock |
| Selector.ProxySelector.TryRestoreLocked | v2proxy/selector.go:663-679 | restarts the old key at its present position, or leaves no child |
| Selector.ProxySelector.PlanSwitch | v2proxy/selector.go:569-592 | the candidates are exactly the indices that are not active and not excluded, each once, in cyclic order from just after the active one |
| Selector.SearchAmong | v2proxy/selector.go:598-609 | the switch's search is one complete run of the parallel search system |
| Selector.ProxySelector.BringUp | v2proxy/selector.go:626-643 | up exactly if the winner starts, binds and verifies; every other way out runs the restore |
| Selector.ProxySelector.Swap | v2proxy/selector.go:612-650 | the locked half of a switch: the winner re-anchored by key, then stop, start, wait, verify, adopt or restore |
| Selector.ProxySelector.SwitchToNextExcluding | v2proxy/selector.go:565-650 | keeps the selector consistent and is a `Switched`: exact candidates, one complete search over them, and from the state the swap found exactly the swap of the winner, or nothing |
| Selector.SwitchOutcome | v2proxy/selector.go:565-679 | such a switch succeeds exactly if the winner is still in the pool, starts, binds and verifies; success is a key of both pools, not excluded, not the old one; failure is one of three states; serving is untouched until the swap; and no child is left exactly if neither winner nor old upstream came up |
| SelectorHistory.CandidatesAreCommittable | v2proxy/selector.go:546-592 | the candidate list holds exactly the positions that a commit of the step system may name |
| SelectorHistory.SwitchIsARun | v2proxy/selector.go:565-650 | every switch of the object is a run of the step system: snapshot, refreshes, commit |
| SelectorHistory.HistoryIsARun | v2proxy/selector.go:218-679 | whatever is called on a selector, in whatever order and with whatever outcome, from its first state on, is a run of the step system that ends in the same state: pool updates, retains of earlier active configs, switches, checks, populates that adopt or fail |
| SelectorHistory.AlwaysConsistentIff | v2proxy/selector.go:218-679 | over any such history the selector is consistent after each call if and only if each retained config is what the live child runs |
| Selector.ProxySelector.HealthCheck | v2proxy/selector.go:482-535 | is the step whose history the health-trace lemmas read, with passive proof taken from the byte ledger |
| Selector.ProxySelector.ServingClients | v2proxy/selector.go:174-195 | is one step of the socket guard |
| Selector.ProxySelector.TryConfigs | v2proxy/selector.go:384-480 | one populate pass, with other workers acting at every turn: it goes on to the first candidate that it claimed and that was fit, or to the end or the deadline; its trail in the ledger is exactly that of the candidates' fates, and what it counts as skipped is how many were bad when looked at or claimed and silent; the selector is then as if only the adopted candidate had ever been started, or as it was, perhaps without its child |
| Selector.ProxySelector.ClaimNext | v2proxy/selector.go:389-405 | excluded keys are passed over uncounted, bad ones counted, and anything else is claimed unless a peer holds it |
| Selector.ProxySelector.ProbeClaimed | v2proxy/selector.go:406-478 | wins exactly on a fit probe; the ledger hears reject, silent, throttled or adopt as the verdict says and then, unless the candidate is kept, the release; no child is left behind |
| Selector.ProxySelector.HandBack | v2proxy/selector.go:406-478 | a proven-bad candidate is marked before its claim is returned, an unproven one is not marked, and only a silent one counts as skipped |
| Selector.ProxySelector.StartShared | v2proxy/selector.go:320-343 | the second pass runs exactly if the first adopted nobody and found somebody bad or silent; success is exactly an adoption in one of the passes, of a key that is claimed, not excluded and not used by anybody; the whole trail in the ledger |
| Populate.OthersLeaveMe | v2proxy/selector.go:265-318 | no run of other workers' steps moves a worker that is in the middle of something |
| Populate.SkippedIff | v2proxy/selector.go:399-402 | something was counted as skipped if and only if some candidate was bad when looked at, or claimed and silent |
| Populate.ThrottledAloneIsNotRetried | v2proxy/selector.go:461-471 | a first pass over throttled candidates, none marked bad, adopts nobody and counts nothing, whatever peers claim meanwhile |
| Watchdog.OrphanVictims | v2proxy/watchdog.go:87-95 | exactly the found processes outside the keep set, once each |
| Watchdog.ManagedPIDs | v2proxy/watchdog.go:139-153 | exactly the serving handles and the throwaway probes of all instances |
| Watchdog.PruneOrphans | v2proxy/watchdog.go:100-128 | signals exactly the found processes in neither keep set that are still ours, once each, and returns how many |
| Watchdog.SwitchChildrenAreOwned | v2proxy/selector.go:814-890 | during a switch at most one plus the workers children run, and each is owned except one being launched under the lock |
| Watchdog.StepInv | v2proxy/watchdog.go:100-153 | every launch, registration, stop, death, tick and prune step keeps: no suspect is still unregistered after the sleep, and one that a selector owns is in the second keep set once its register was read |
| Watchdog.OnlyOrphansAreKilled | v2proxy/watchdog.go:109-126 | if registration follows launch by less than 500 ms and pids are not reused, no run kills a process that is owned, or about to be, at the moment of the kill |
| Watchdog.SlowRegistrationIsKilled | v2proxy/watchdog.go:109-111 | for any longer delay some run kills a child whose registration is pending |
| Watchdog.OrphansDoNotOutliveAPass | v2proxy/watchdog.go:100-128 | a finished pass leaves none of the orphans alive that it began with |
| ProcTable.ParseProcNetTCP | v2proxy/selector.go:1254-1278 | the line loop computes the parse of the whole table |
| ProcTable.UnderstoodIff | v2proxy/selector.go:1246-1278 | a table is understood exactly if its first non-blank line is the header and every other one is a row; then it gives one row a line, in order |
| ProcTable.BlankLinesChangeNothing | v2proxy/selector.go:1250-1261 | a blank line inserted anywhere changes nothing |
| ProcTable.MappedIsSameEndpoint | v2proxy/selector.go:1302-1327 | an IPv4 endpoint and its v4-mapped IPv6 spelling parse alike |
| ProcTable.EndpointRoundTrip | v2proxy/selector.go:1307-1327 | printing an endpoint the kernel's way and parsing gives it back |
| ProcTable.RowRoundTrip | v2proxy/selector.go:1283-1300 | so does printing a row, whatever the columns hold that are not read |
| ProcTable.TableRoundTrip | v2proxy/selector.go:1254-1278 | so does printing any list of rows under the header, in order |
| ProcTable.ParsedRowIsPrintable | v2proxy/selector.go:1283-1327 | the round trip covers every row that can come out of a table |
| Sockets.ConnectionIsUnorderedPair | v2proxy/selector.go:1349-1358 | two rows have the same key exactly if they join the same two endpoints, either way round |
| Sockets.ForeignEstablished | v2proxy/selector.go:1348-1382 | counts the set of connections that touch the port, have an established row and have no row of ours |
| Sockets.SameConnectionsSameCount | v2proxy/selector.go:1348-1382 | tables that know the same connections in the same states with the same owners count alike |
| Sockets.FlipsAndRepeatsDoNotCount | v2proxy/selector.go:1348-1382 | reordering, repeating and flipping rows end for end never changes the count |
| Sockets.MoreOwnedCountsFewer | v2proxy/selector.go:1348-1382 | more sockets of our own can only lower the count |
| Sockets.OneClientCountsOnce | v2proxy/selector.go:1329-1347 | a client counts once, our own probe not at all |
| Egress.EgressNotes.NoteEgress | v2proxy/httpproxy.go:158-165 | stamps one port, and drops a port that is not one |
| Egress.EgressNotes.EgressActive | v2proxy/httpproxy.go:170-180 | true exactly if one of the ports was noted after the cutoff |
| Egress.ActiveIffRecentFlow | v2proxy/httpproxy.go:140-180 | over any history of notes a port set reads as serving exactly if one of its real ports moved bytes within the grace |
| Egress.ClockIsFirstBlindScan | v2proxy/selector.go:174-206 | the guard's clock is the first of the unknown scans that nothing has interrupted |
| Egress.NotBusyIff | v2proxy/selector.go:166-206 | over every sequence of scans and launches the guard says "not busy" exactly on a proven-empty scan, or on an unknown one at least the grace after an earlier unknown one with only unknown ones between |
| Health.ProbeLegs | v2proxy/healthcheck.go:181-194 | the targets are the primary, the fallback and, if enabled, Telegram, none twice, each with its own rule |
| Health.RaceProbe | v2proxy/healthcheck.go:215-253 | the answer is the first arrival its own leg's rule accepts, normalised to working, or else the first arrival |
| Health.Race | v2proxy/healthcheck.go:204-253 | the race's answer is one that RaceAnswer allows, and works exactly if some leg's rule accepts |
| Health.RaceWorksIff | v2proxy/healthcheck.go:215-253 | whether a raced probe works is the same for every arrival order |
| Health.FailureIsOrderFreeIff | v2proxy/healthcheck.go:117-163 | the verdict on a race is the same for every arrival order exactly if some leg wins or no two legs disagree on being inconclusive |
| Fleet.ProxyManager.BuildExcluding | v2proxy/manager.go:248-261 | exactly the keys the other instances serve |
| Fleet.ProxyManager.SwitchApart | v2proxy/manager.go:549-578 | a switch that avoids the others' keys keeps active keys pairwise distinct whether it succeeds, restores or fails |
| Passes.KeptIsFromWorld | v2proxy/selector.go:565-650 | a switch that kept its promises succeeds, and leaves a child, exactly as its world says |
| Fleet.ProxyManager.FailOver | v2proxy/manager.go:563-575 | marks down, makes one switch, a `Switched` like any other, that avoids exactly the others' keys, and marks its outcome |
| Fleet.ProxyManager.HealthCheckAll | v2proxy/manager.go:549-611 | keeps active keys distinct; an instance not due is untouched, one that passes changes only its books, one that fails is switched once, away from exactly the keys that the others serve when its turn comes, and marked as that went; then the relay, if there is one, is alive exactly as its one probe says |
| Fleet.ProxyManager.RefreshSubscriptions | v2proxy/manager.go:642-675 | one refresh over all instances keeps active keys distinct; exactly the ok ones are reconciled, the others get their pool and nothing else. Each turn is told in full: the fleet it found, the evidence, what was done, the one switch it made if any, from which state, in which world and off which keys, and the status that left |
| Fleet.ProxyManager.RefreshOne | v2proxy/manager.go:645-675 | one such turn. A vanished upstream is retained, or switched away from the refreshed state off exactly what the others serve; a rotation needs idle bytes, idle sockets and a fresh slow measurement, and may go only to the candidate that proved faster; a failed one leaves the status; anything else changes at most the socket clock |
| Passes.RenewalOutcome | v2proxy/manager.go:645-742 | an ok instance is retained or switched away exactly if its key is gone from the new pool; a retained one has its config at its place in the pool, or at the head; and one that is retained or untouched keeps child and key |
| Fleet.ProxyManager.ReconcileActive | v2proxy/manager.go:708-816 | a vanished upstream is retained exactly if it never failed and nobody else took it; a rotation needs byte evidence, socket evidence and a fresh slow measurement at once, and goes by one switch to the first of at most three fresh candidates proven 30% faster, succeeding exactly if that one comes up; a failed one keeps the status, and has no child left exactly if neither came up; otherwise nothing changes but the socket clock; never more than three probes |
| Fleet.ProxyManager.RotateSlow | v2proxy/manager.go:775-815 | moves exactly if one of the few candidates reached in budget was decisively faster, and can move nowhere else |
| Fleet.ProxyManager.FindFaster | v2proxy/manager.go:778-799 | finds the first decisively faster candidate, or shows that none of the first three in budget is |
| Fleet.ProxyManager.Vanished | v2proxy/manager.go:714-742 | retain or switch, by the exact condition |
| Fleet.ProxyManager.RecoverInstance | v2proxy/manager.go:680-697 | run alone it keeps active keys distinct, by one switch away from exactly the others' keys; its duplicate branch is never taken |
| FleetRuns.MovesKeepApart | v2proxy/manager.go:549-816 | a turn that leaves its instance on its old key, on none, or on one that nobody serves keeps active keys distinct |
| FleetRuns.HealthPass | v2proxy/manager.go:549-578 | every turn of every health pass is of that kind, and leaves the old child, none, or one whose selector has a valid index |
| FleetRuns.RefreshPass | v2proxy/manager.go:642-816 | so is every turn of every refresh |
| FleetRuns.PassKeepsApart | v2proxy/manager.go:549-816 | so active keys are distinct after every turn of every such pass |
| FleetRuns.ChildrenStayApartIff | v2proxy/manager.go:248-261 | a turn keeps the keys that the children run apart if and only if the child it leaves does not run what another selector's hidden child runs |
| FleetRuns.PassKeepsChildrenApartIff | v2proxy/manager.go:248-261 | over a whole pass they stay apart if and only if that holds of every turn |
| FleetRuns.HiddenChildIsAdopted | v2proxy/manager.go:642-742 | two refreshes of a healthy fleet of two: the first drops an index and leaves its child, in the second the peer adopts that child's upstream; active keys are distinct throughout |
| FleetRuns.RotationCanStrand | v2proxy/manager.go:749-808 | idle, with a fresh slow measurement and a candidate proven faster, an instance goes by its one rotation from a live child to none, and its status stays ok |
| Recovery.StepInv | v2proxy/manager.go:680-697 | every refresh, look, switch and retain of any number of instances keeps: two share a key only if each looked at the other before it acted |
| Recovery.BooksMatchRun | v2proxy/manager.go:248-261 | who was looked at in time, as the books have it, is what the run says |
| Recovery.RecoveriesCollideIff | v2proxy/manager.go:642-742 | in every run of a refresh two instances share a key if and only if both switched to it or retained it and each had looked at the other before the other did |
| Recovery.ApartIff | v2proxy/manager.go:642-742 | active keys stay pairwise distinct if and only if no two instances collide in that way |
| Recovery.ParallelRecoveryCollides | v2proxy/manager.go:656-662 | from a healthy fleet of two: both look, both switch, both serve the same key |
| CheckCache.UrlCheckCache.Get | v2proxy/urlcheck.go:276-286 | a hit exactly within the TTL, marked as cached |
| CheckCache.UrlCheckCache.Begin | v2proxy/urlcheck.go:290-299 | leads exactly if no flight is open, else joins the open one |
| CheckCache.UrlCheckCache.Finish | v2proxy/urlcheck.go:301-325 | result before close, errors never stored, oldest entries evicted until there is room, key free again |
| CheckCache.Oldest | v2proxy/urlcheck.go:308-316 | an entry no younger than any other, for every order of the map |
| CheckRuns.StepInv | v2proxy/urlcheck.go:250-372 | every step of any number of requests keeps cache, flights and requests consistent |
| CheckRuns.SingleFlight | v2proxy/urlcheck.go:250-372 | at most one open flight and one leader a key, never more than 128 entries, each under its own URL; hits are fresh and deep enough, every joiner gets exactly its flight's answer, and an open flight has a leader at work |
| CheckRuns.FinishLeavesRoom | v2proxy/urlcheck.go:301-325 | an error stores nothing, and a finished key can be led again at once |
| CheckRuns.JoinedDepthIff | v2proxy/urlcheck.go:358-367 | a joined answer is deep enough exactly if its flight was |
| CheckRuns.ShallowAnswerToDeepRequest | v2proxy/urlcheck.go:353-367 | a run in which a deep request gets a shallow answer |
| CheckServer.Server.constructor | v2proxy/urlcheck.go:268-274 | a new cache is an image of the system's start |
| CheckServer.Server.Look | v2proxy/urlcheck.go:353-357 | the cache lookup is the system's look: a hit only if fresh and deep enough |
| CheckServer.Server.Begin | v2proxy/urlcheck.go:358-359 | leading or joining is the system's begin, on the very flight object |
| CheckServer.Server.Finish | v2proxy/urlcheck.go:369-371 | finishing is the system's finish, eviction and closing included |
| CheckServer.Server.CheckURL | v2proxy/urlcheck.go:335-372 | one request, with others acting in between: whatever it returns is the answer of its client in a reachable state of the system, so all that holds of clients holds of it |
| Slots.SlotsAreConserved | v2proxy/httpproxy.go:76-82 | free tokens plus held slots are the capacity in every reachable state, and a return never blocks |
| Slots.ReturnedExactlyOnce | v2proxy/httpproxy.go:282-284 | over every run a request that was served took one slot and any other none; the slot is still held or was returned once, although two goroutines may try: once the plain request is done, or either end of the tunnel is |
| Slots.LiveTunnelHoldsSlotIff | v2proxy/httpproxy.go:270-284 | a live tunnel holds its slot exactly until its handler has returned |
| Slots.AnyNumberOfTunnels | v2proxy/httpproxy.go:257-326 | any number of tunnels can be live with every slot free |
| BoundedDial.ConnectionIsNeverLost | v2proxy/httpproxy.go:32-56 | a dialled connection is in the buffer, with the caller or closed, one of them only, and ends with the caller or closed |
| Relay.StepInv | v2proxy/httpproxy.go:409-451 | every step of either loop keeps: what is read and not written is the chunk in hand, or the tail of one whose write failed; both deadlines are the last arming plus the window |
| Relay.StreamsAreForwarded | v2proxy/httpproxy.go:409-451 | each side is written a prefix of what the other sent, all of it before the next read, and all of it when the stream ended by itself; compare section 9.3.6 of RFC 9110 |
| Relay.IdleCutMeansSilence | v2proxy/httpproxy.go:397-424 | the deadline cuts a tunnel only if neither loop has armed for a full window |
| Relay.CopyBodyIdle | v2proxy/httpproxy.go:339-360 | stops at the first end or failed write, with exactly what was taken till then; fails unless that is the plain end; and moves the deadline with each delivered chunk |
| Aggregate.GetAliveStatuses | v2proxy/manager.go:832-847 | each entry that is ok, as often as it is listed, none that is not, fastest first, ties in any order |
| Aggregate.PickBest | v2proxy/manager.go:277-301 | the fastest qualified entry, or the fastest of all if none qualifies; none if it has no instance |
| Aggregate.OrderedAlive | v2proxy/aggregate.go:198-221 | the qualified tier followed by the rest |
| Aggregate.OrderRefinesPick | v2proxy/aggregate.go:147-162 | for every status list and threshold the order is a permutation of the ok entries, qualified first and fastest first within a tier, and its head is the pick |
| Aggregate.PickIsUnbeaten | v2proxy/manager.go:272-276 | nothing ranks strictly before the pick, so the unstable sort changes only which of several equals it is |
| Aggregate.PortsForOrder | v2proxy/aggregate.go:226-243 | the order's diallable ports |
| Aggregate.LadderIsSubsequence | v2proxy/aggregate.go:177-243 | direct and relay ladders are the ports of rising positions of that order, exactly the diallable ones |
| Aggregate.LadderRefinesPick | v2proxy/aggregate.go:147-164 | the first rung is the pick whenever the pick can be dialled, and the ladder is empty only if nothing can |
| Aggregate.ServeCandidates | v2proxy/aggregate.go:97-145 | serves the first candidate that accepts within its share, closes the client exactly if none does, dials nothing after the budget, is over exactly when its last dial ends, credits only a direct backend that serves |
| Aggregate.HandleRelayConn | v2proxy/aggregate.go:89-95 | a dark relay closes at once without dialling |
| Aggregate.FirstSevenAreReached | v2proxy/constants.go:239-250 | each of the first seven is reached in time whatever the others do, six of them with their full share |
| Aggregate.SevenHangsUseUpTheBudget | v2proxy/aggregate.go:22-31 | seven is exact: if all hang the eighth is never dialled and the walk ends on the budget |
| Breaker.SrcBreaker.Allow | v2proxy/manager.go:76-86 | refuses and counts down exactly while rest is left; other URLs are unaffected |
| Breaker.SrcBreaker.Note | v2proxy/manager.go:95-116 | success forgets; a failure counts, and the third sets a rest unless one was ever set; other URLs are unaffected |
| Breaker.SrcBreaker.Refresh | v2proxy/manager.go:613-635 | one refresh asks for each source as often as it is listed, blank lines aside, and notes each one let through: for every URL, which askings get through and what is remembered |
| Breaker.OnceIsARound | v2proxy/manager.go:613-635 | for a source listed once that is one round of the automaton |
| Breaker.CopiesShareTheRest | v2proxy/main.go:64-65 | a source listed n times uses up its rest n at a time, and is refused in the k-th refresh of it exactly while k * n askings fit in |
| Breaker.EntryIsHistory | v2proxy/manager.go:69-116 | the breaker's memory is the fold of the URL's history |
| Breaker.RefusedIff | v2proxy/manager.go:69-116 | refused exactly while three failures and fewer than five refusals were counted since the last success |
| Breaker.RestLastsFive | v2proxy/manager.go:62-68 | the third failure in a row starts exactly five refusals |
| Breaker.RefusedIffAsDocumented | v2proxy/manager.go:62-68 | under the documented rule every failed probe buys five more refusals |
| Breaker.DocumentedRuleKeptIff | v2proxy/manager.go:108-115 | code and documentation agree on a run exactly if no refresh starts with a fourth failure on the counter |
| Breaker.FailedProbeDoesNotRearm | v2proxy/manager.go:108-115 | the tenth refresh of a dead source is fetched, where it should have been refused |
| Pool.DedupConfigs | v2proxy/manager.go:215-229 | keeps the first config of each key, in order |

## Left out

- SelectorRuns.StepInv: for a retain it takes that the config fits, which the code does not check; `SelectorRuns.ConsistentIffRetainsFit` is the exact condition, without that.
- SelectorRuns.SelectorIsAlwaysConsistent: the same.
- Selector.ProxySelector.SwitchToNextExcluding: only pool refreshes come between its snapshot and its swap; every other interleaving is in `SelectorRuns`, on the state as a value; there, whatever is called on one object is a run (`SelectorHistory.HistoryIsARun`).
- Selector.ProxySelector.StartShared: the nil ledger of `StartWithBest`, which nothing shares, is not modelled.
- Fleet.ProxyManager.RefreshSubscriptions: the recoveries it starts in parallel for instances that are not ok are `RecoverInstance`, one at a time and outside this pass, and in parallel with it in `Recovery`; refreshes during `Start` are not modelled.
- Fleet.ProxyManager.HealthCheckAll: status names and error texts are not modelled; whether there is a relay to probe is a parameter; switches are atomic with respect to the other instances; what acts in parallel is in `Recovery`.
- Recovery.RecoveriesCollideIff: a switch is one step after the looks, so no refresh comes inside it; each instance acts once; a retained config is taken to be what the child runs (`SelectorRuns.ConsistentIffRetainsFit` is about when it is not); one instance is looked at in one step, all of them one after the other.
- Fleet.ProxyManager.RotateSlow: the pool is read once, where the code reads it again to build its exclusions; the rotation budget is asked once a candidate.
- Watchdog.OnlyOrphansAreKilled: the number of instances is fixed, pids are never reused, and re-reading the command line is "is the process still alive".
- Search.ThrowawayChildrenBounded: the time a bind or a probe takes is not modelled, only its outcome; the budget may run out at any step.
- ProcTable.ParseProcNetTCP: text is ASCII; Unicode white space and upper-casing beyond ASCII are not modelled.
- Aggregate.GetAliveStatuses: the library sort is any sorted permutation.
- Aggregate.ServeCandidates: a dial takes at most its budget; the relays that follow are `Relay`.
- Relay.IdleCutMeansSilence: a hop that is not yet followed by its arming, or by which its loop left, is not counted as silence broken; setting both deadlines is one step; the flow hook and keep-alive tuning are not modelled.
- Relay.CopyBodyIdle: the body is given as the list of what its reads return, one of them an end, and the client as what each write takes.
- CheckServer.Server.CheckURL: what the check itself finds is a parameter, and a wait ends with the flight or with the caller hanging up.
- Health.RaceProbe: legs answer in any order; timeouts are transport errors.
- `Start`: goroutine scheduling and the populate semaphore appear only as ledger steps; early serving, the ticker and the summary are left out.
- Subscription fetching, config parsing and rendering, DNS, TLS and the SOCKS wire format: library-driven; outcomes are parameters.
- Target vetting for `/check` (`normalizeCheckTarget`, `isNonPublicIP`, `registrableDomain`): decided branch by branch over a library list.
- Probing for `/check` itself (`runURLCheck`, `probePoolForURL`): its result is a parameter.
- The watchdog's port check, port block scanning, environment parsing, logging, the other API handlers, scripts and container files: plumbing.
