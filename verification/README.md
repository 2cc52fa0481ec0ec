# Delivery platform: verification model

A Dafny model of the parts of the delivery platform whose correctness depends on interleavings, combinatorics or state
kept by hand, and proofs of what they promise. `dafny verify dfyconfig.toml` checks all of it.

Two kinds of file go together in each area. One describes the system as a state machine over values: a request handler is
cut at its database, Redis and socket calls, any other step may run between two of them, and the theorems are about every
run. The other holds classes that change their fields as the services do, loop for loop and write for write, with
postconditions that tie each method to the specification the theorems are about.

| area | specification and theorems | services |
|---|---|---|
| delivery, stops, POD, conflicts | `DeliveryRows`, `DeliverySafety`, `DeliveryCompletion`, `PodOnce`, `PodAnswers`, `PodCoverage`, `DeliveryOutcomes` | `DeliveryStore` |
| route solvers | `Tours`, `Permutations`, `SolverComparison` | `Exhaustive`, `TwoOpt` |
| refresh-token sessions | `Sessions`, `SessionCaps`, `SessionLimit`, `SessionLineage` | `SessionStore` |
| socket connections | `Connections`, `DriverSockets` | `Connections` |
| call signalling | `CallSignalling`, `SignalOrder`, `CallOutcomes`, `SignalHandlers` | `SignalHandlers` |
| route mutation and history | `RouteMutation`, `RouteHistory`, `RouteSafety`, `RouteOutcomes` | `RouteMutation`, `RouteStore` |
| image slots | `Limiter` | `Limiter` |
| uncertain revocations | `Revocation`, `RevocationOutcomes` | `Revocation` |
| latest location | `CacheUpdates`, `BatchOrder`, `BatchFates`, `LocationCache`, `LocationOutcomes` | `LocationCache` |

The `Outcomes` files say, with every status, limit and time written out, what a request leaves when it runs alone and what
a race leaves of it; the other theorems say what no interleaving breaks.

`Collections` and `Wrappers` hold what several of them share.

Where the code does not do what one might expect, the project says so with a lemma that exhibits the input, beside the
theorem that says when it does:

- A delivery whose stops were all skipped before it was started has no auto-complete call left and waits for a manual
  complete (`SkippedBeforeStartIsLost`), which closes it (`LostIsCompletable`); nothing else loses a completion
  (`NoLostCompletion`).
- An override of a ticket without a receiver can deliver a stop without a POD (`OverrideWithoutReceiver`); nothing else
  does (`UncoveredExactly`). One key used for two stops can be answered with two PODs (`SharedKeyFromNew`): exactly when a
  submit is told the POD that its delivered stop got under no or another key (`ToldAnotherExactly`) and the key is
  recorded in the end, or submits of two stops are told such PODs (`AnswersDifferExactly`).
- A user can end up with six active sessions: by two logins that overlap, or by a login that is overlapped by the rotation
  of a session it is about to evict (`SixReached`); exactly when a login creates its session while five are active
  (`EverExceedsExactly`).
- A user made a driver can end up with two active sessions, by a login from before the change that is still in flight
  (`OldLoginOpensSecond`); nothing else leads to it (`EverTwoExactly`).
- A driver id on a socket of another role escapes the one-socket rule (`OtherRoleSlipsPast`); nothing else does
  (`TwoLiveExactly`).
- A sequence check held up past the end of its session, or a candidate held up by its rate limit, can be relayed out of
  order (`DisorderReached`). Accepted numbers lose their order exactly by such a check (`OrderExactly`); without one, relayed
  numbers do exactly when a waiting candidate goes out after a signal that its sender had accepted later
  (`DisorderIsPassed`).
- A row that already holds a negative number can block a reorder (`RenumberExact`); creation only accepts numbers from 1.
- A revocation that failed can be forgotten early: by displacement even right after it failed again
  (`FreshFailureDisplaced`), or by the late acknowledgement of an earlier write (`LateAcknowledgementForgets`,
  `LossReached`). isRevoked would then answer false too early, and does so only then (`RevocationForgottenExactly`). Only an
  empty key at its head lets the map grow past its limit (`OverflowsExactly`), and no caller passes an empty key: all pass
  `revoked:session:` or `revoked:user:` and an id.
- Two overlapping updates of a driver's location can leave the older one cached (`OverlapLeavesOlder`), exactly by a write
  whose read is out of date (`StaleExactly`).
- Two points of a batch under one idempotency key can make the cached date depend on their order
  (`SharedKeyOrderMatters`), and a valid and an invalid point under one key their refusals and replays (`ClashFirst`);
  `DateOrderIndependent` and `KindsOrderIndependent` say when.

## Model

| member | source | states |
|---|---|---|
| `DeliverySafety.RunSound` | src/modules/deliveries/services/deliveries.service.ts:300-438 | every interleaving keeps the invariant (sound verdict, tickets only on a cancelled or overridden delivery, every read verdict still right or no longer claimable), and no run undoes a finished stop, a DELIVERED stop or a terminal delivery, save CANCELLED to COMPLETED |
| `DeliverySafety.VerdictsAreRight` | src/modules/deliveries/services/deliveries.service.ts:380-406 | from a new delivery, whatever runs between evaluating and claiming and whatever is overridden: COMPLETED means all stops finished and one delivered, FAILED all finished and none delivered, and either is what the evaluator would still say |
| `DeliverySafety.OneWinner` | src/modules/deliveries/services/deliveries.service.ts:312-359 | complete, auto-complete and cancel together claim a delivery at most once in any run, and never once it is terminal |
| `DeliverySafety.StatusMoves` | src/modules/deliveries/services/delivery-conflicts.service.ts:206-223 | a delivery becomes terminal exactly by a winning claim, and leaves a terminal status only from CANCELLED to COMPLETED by an override |
| `DeliverySafety.StopDiagram` | src/modules/deliveries/services/delivery-stops.service.ts:56-260 | in every step of every run a stop stays, moves along an acyclic diagram while its delivery is open, or is delivered by an override of its own ticket |
| `DeliverySafety.StatusDiagram` | src/modules/deliveries/services/deliveries.service.ts:152-438 | in every step a delivery stays, moves along its diagram, or goes from CANCELLED to COMPLETED by an override |
| `DeliverySafety.SoundStep` | src/modules/deliveries/services/delivery-stops.service.ts:232-260 | each database call of each request, run with any others in flight, keeps the invariant |
| `DeliverySafety.StopClaimEvolves` | src/modules/deliveries/services/delivery-stops.service.ts:232-260 | a guarded stop write changes anything only on an open delivery and from an unfinished stop, and keeps the invariant |
| `DeliverySafety.PodCommitEvolves` | src/modules/pod/services/pod.service.ts:93-150 | the POD transaction changes anything only for an arrived or unloading stop of an open delivery, and keeps the invariant |
| `DeliverySafety.ResolveEvolves` | src/modules/deliveries/services/delivery-conflicts.service.ts:167-223 | a resolution, which re-checks nothing, changes anything only on a cancelled or already overridden delivery, which stays one |
| `DeliverySafety.ClaimEvolves` | src/modules/deliveries/services/deliveries.service.ts:311-322 | a claim of a verdict read earlier leaves the rows sound as long as the verdict stands |
| `DeliverySafety.CallStaysSound` | src/modules/deliveries/services/deliveries.service.ts:300-322 | what one request has read survives any other step: the read/claim gap is harmless |
| `DeliveryCompletion.NoLostCompletion` | src/modules/deliveries/services/delivery-stops.service.ts:138-221 | over every run: a finished EN_ROUTE delivery is left with no auto-complete call on its way if and only if the run starts a delivery that had nothing left to deliver |
| `DeliveryCompletion.LostOnlyByStart` | src/modules/deliveries/services/deliveries.service.ts:238-270 | one step loses a completion exactly when it is such a start |
| `DeliveryCompletion.DrainedMeansUnfinished` | src/modules/deliveries/services/deliveries.service.ts:412-438 | without such a start, once no auto-complete call is pending an EN_ROUTE delivery still has an open stop |
| `DeliveryCompletion.LastStopSchedules` | src/modules/pod/services/pod.service.ts:93-198 | whoever finishes the last open stop of an EN_ROUTE delivery goes on to an auto-complete call |
| `DeliveryCompletion.AutoCallFinishes` | src/modules/deliveries/services/deliveries.service.ts:412-438 | a pending auto-complete call on a finished EN_ROUTE delivery goes on to its claim, and the claim writes the verdict the stops call for |
| `DeliveryCompletion.PendingCallCloses` | src/modules/deliveries/services/deliveries.service.ts:412-438 | one pending auto-complete call, run to its end, closes a finished delivery with the right verdict |
| `DeliveryCompletion.SkippedBeforeStartIsLost` | src/modules/deliveries/services/delivery-stops.service.ts:181-221 | the exception happens: skip the only stop of a draft, let its auto-complete call give up, then start |
| `DeliveryOutcomes.CompleteAlone` | src/modules/deliveries/services/deliveries.service.ts:282-340 | a manual complete gives an EN_ROUTE delivery with nothing left COMPLETED if a stop was delivered and FAILED if none was; in any other case nothing changes |
| `DeliveryOutcomes.LostIsCompletable` | src/modules/deliveries/services/deliveries.service.ts:282-340 | so a completion that was lost is closed by a manual complete |
| `DeliveryOutcomes.StopAlone` | src/modules/deliveries/services/delivery-stops.service.ts:56-230 | each stop operation from each accepted status moves the stop to its one next status, fail and skip then complete the delivery if nothing is left, and everything else changes nothing |
| `DeliveryOutcomes.StopClaimed` | src/modules/deliveries/services/delivery-stops.service.ts:232-260 | in any interleaving a stop operation that was let in moves its stop exactly if the diagram still leads on from where the stop is by now and the delivery is open |
| `DeliveryOutcomes.AutoCarried` | src/modules/deliveries/services/deliveries.service.ts:412-438 | an auto-complete call run to its end completes the delivery as a manual complete would |
| `DeliveryOutcomes.SubmitAlone` | src/modules/pod/services/pod.service.ts:44-198 | a POD submit is answered with its key's POD, or the delivered stop's, or a new one under its key that delivers the stop and completes the delivery if nothing is left; otherwise it is refused and nothing changes |
| `DeliveryOutcomes.LateSubmitReplays` | src/modules/pod/services/pod.service.ts:172-190 | a submit whose key was recorded before its transaction answers with the recorded POD and writes nothing |
| `DeliveryOutcomes.ReportAlone` | src/modules/deliveries/services/delivery-conflicts.service.ts:44-66 | an offline event for a stop of a cancelled delivery files one OPEN ticket |
| `DeliveryOutcomes.TicketFiledLate` | src/modules/deliveries/services/delivery-conflicts.service.ts:44-59 | and does so even if the delivery has been completed by an override in between |
| `DeliveryOutcomes.ResolveAlone` | src/modules/deliveries/services/delivery-conflicts.service.ts:160-223 | a resolution of an OPEN ticket sets its verdict; an override also delivers its stop, with a POD if the ticket names a receiver and there is none, and completes the delivery whatever its status if nothing is left; a resolved ticket is refused |
| `DeliveryOutcomes.ResolveStep` | src/modules/deliveries/services/delivery-conflicts.service.ts:167-223 | in any interleaving, even after another resolution of the ticket, the transaction does exactly that: the later verdict stands and an override is not undone |
| `DeliveryOutcomes.WritesExact` | src/modules/deliveries/services/deliveries.service.ts:152-359 | assign, accept, start and cancel move the delivery from the listed statuses only, and write nothing else |
| `DeliveryOutcomes.StopEventSynced` | src/modules/deliveries/services/delivery-conflicts.service.ts:66-103 | an offline depart, arrive or unload does that operation and is acknowledged exactly when it did |
| `DeliveryOutcomes.PodEventSynced` | src/modules/deliveries/services/delivery-conflicts.service.ts:66-103 | an offline POD submits under its key and is acknowledged exactly when it is answered |
| `DeliveryOutcomes.OtherEventAcknowledged` | src/modules/deliveries/services/delivery-conflicts.service.ts:66-103 | an event without a stop or of another kind is acknowledged and does nothing |
| `DeliveryOutcomes.SyncedInOrder` | src/modules/deliveries/services/delivery-conflicts.service.ts:27-103 | the events of a sync take effect one after another, in order |
| `PodOnce.RunOnce` | src/modules/pod/services/pod.service.ts:44-192 | in every run PODs and idempotency records are only added, each stop has at most one POD, a POD implies DELIVERED, records are never placeholders and every reply names a true POD |
| `PodOnce.OnePodPerKey` | src/modules/pod/services/pod.service.ts:93-192 | one idempotency key creates at most one POD |
| `PodOnce.ReplayTellsCreatorsAnswer` | src/modules/pod/services/pod.service.ts:172-190 | a replay tells a submit the POD that the submit which wrote the record created and was told |
| `PodAnswers.ToldAnotherByFetch` | src/modules/pod/services/pod.service.ts:63-75 | a submit under a key is told a POD other than the one recorded under it exactly when it read its stop as delivered and that stop's POD was not created under the key |
| `PodAnswers.ToldAnotherExactly` | src/modules/pod/services/pod.service.ts:44-192 | over any run some submit of a stop under a key is told a POD that was not created under the key if and only if one reads that stop as delivered by such a POD |
| `PodAnswers.AnswersDifferExactly` | src/modules/pod/services/pod.service.ts:44-192 | over any run of a new delivery two submits under one key are told different PODs if and only if one of them is told a POD in that way and the key ends up recorded, or submits of two stops are told PODs in that way |
| `PodAnswers.RecordedAnswersAgree` | src/modules/pod/services/pod.service.ts:44-192 | so if none is told a POD in that way, all submits under the key are told one POD, whatever stops they name |
| `PodAnswers.RepliesAgree` | src/modules/pod/services/pod.service.ts:44-192 | if all submits that a run begins under a key are for one stop, those that are told a POD are told the same one |
| `PodAnswers.SharedKeyRepliesDiffer` | src/modules/pod/services/pod.service.ts:44-88 | under a key used for a delivered stop and then for an arrived one two PODs are told |
| `PodAnswers.SharedKeyFromNew` | src/modules/pod/services/pod.service.ts:44-192 | that happens to a new delivery of two stops |
| `PodCoverage.UncoveredStep` | src/modules/deliveries/services/delivery-conflicts.service.ts:181-206 | one step leaves a delivered stop without a POD exactly when it overrides a ticket without a receiver for a stop that has no POD |
| `PodCoverage.UncoveredExactly` | src/modules/deliveries/services/delivery-conflicts.service.ts:181-206 | over any run a delivered stop is ever without a POD if and only if the run has such an override |
| `PodCoverage.UnnamedExactly` | src/modules/pod/services/pod.service.ts:63-75 | a submit is answered without a POD exactly when it read its stop as delivered and the stop has none |
| `PodCoverage.DeliveredHasPod` | src/modules/pod/services/pod.service.ts:93-192 | without such an override every delivered stop has its POD and every submit is told one |
| `PodCoverage.OverrideWithoutReceiver` | src/modules/deliveries/services/delivery-conflicts.service.ts:181-223 | such an override is reached from a new delivery |
| `PodOnce.PodIndexNeverFires` | src/modules/pod/services/pod.service.ts:108-135 | a stop the transaction can claim has no POD, so the unique index never rejects a submit |
| `PodOnce.CommitPodOnce` | src/modules/pod/services/pod.service.ts:93-170 | the POD transaction adds one POD under a fresh id with its record and delivers its stop, or changes nothing; it does the former exactly for a claimable stop of an open delivery under an unused key |
| `PodOnce.ResolveOnce` | src/modules/deliveries/services/delivery-conflicts.service.ts:181-206 | an override adds a POD only to a stop that has none and changes no existing one |
| `PodOnce.NewRecordAnswered` | src/modules/pod/services/pod.service.ts:147-171 | the submit that writes a record is answered with exactly what it recorded |
| `DeliveryStore.Store.AssignDelivery` | src/modules/deliveries/services/deliveries.service.ts:152-195 | DRAFT or ASSIGNED becomes ASSIGNED, anything else is refused and unchanged |
| `DeliveryStore.Store.AcceptDelivery` | src/modules/deliveries/services/deliveries.service.ts:197-236 | only ASSIGNED becomes ACCEPTED |
| `DeliveryStore.Store.StartDelivery` | src/modules/deliveries/services/deliveries.service.ts:238-280 | only ACCEPTED becomes EN_ROUTE |
| `DeliveryStore.Store.CancelDelivery` | src/modules/deliveries/services/deliveries.service.ts:342-359 | any non-terminal delivery becomes CANCELLED, a terminal one is refused |
| `DeliveryStore.Store.ClaimEnRoute` | src/modules/deliveries/services/deliveries.service.ts:312-322 | the completion claim matches only an EN_ROUTE row and reports whether it did |
| `DeliveryStore.Store.UpdateStopIfOperational` | src/modules/deliveries/services/delivery-stops.service.ts:232-260 | the stop claim matches only an expected status under a non-terminal delivery and reports whether it did |
| `DeliveryStore.Store.LookupSubmit` | src/modules/pod/services/pod.service.ts:44-88 | a submit before its transaction: replay, the delivered stop, then the two refusals, in this order |
| `DeliveryStore.Store.CommitPodTx` | src/modules/pod/services/pod.service.ts:93-192 | the transaction write by write equals the specified step; a failed write undoes the ones before it |
| `DeliveryStore.Store.CreateTicket` | src/modules/deliveries/services/delivery-conflicts.service.ts:44-59 | a conflict ticket is filed OPEN under a fresh id |
| `DeliveryStore.Store.ResolveTx` | src/modules/deliveries/services/delivery-conflicts.service.ts:167-223 | the resolve transaction write by write equals the specified step |
| `DeliveryStore.Store.Perform` | src/modules/pod/services/pod.service.ts:93-198 | each call of each handler over the tables equals the step the interleaving proofs are about |
| `DeliveryStore.Store.Drive` | src/modules/deliveries/services/delivery-stops.service.ts:138-221 | a whole request, its auto-complete included, equals its steps one after another |
| `DeliveryStore.Store.SyncOutbox` | src/modules/deliveries/services/delivery-conflicts.service.ts:27-103 | the outbox loop acknowledges, files a ticket or drops each event in order, as specified |
| `DeliveryStore.CancelledOutboxOnlyFilesTickets` | src/modules/deliveries/services/delivery-conflicts.service.ts:44-66 | on a cancelled delivery a sync files one OPEN ticket for each event that names a stop, in order, and changes nothing else |
| `Permutations.PermsExact` | src/modules/routes/utils/exhaustive-permutation.util.ts:14-29 | the enumeration of distinct elements is exactly their orderings, each once, N! of them |
| `Permutations.GeneratePermutations` | src/modules/routes/utils/exhaustive-permutation.util.ts:14-29 | the nested loops return that enumeration |
| `Tours.CostGrows` | src/modules/routes/utils/exhaustive-permutation.util.ts:63-73 | the cost of an order is 0 up to one stop, and each further stop adds the entry in the row of the stop before it and the column of its own |
| `Tours.SolutionExact` | src/modules/routes/utils/exhaustive-permutation.util.ts:96-109 | the record lists the waypoints in visiting order, numbered from 1, with the distance to the nearest hundredth and the duration to the nearest whole second, each from its own matrix |
| `Tours.RoundNearest` | src/modules/routes/utils/exhaustive-permutation.util.ts:104-105 | Math.round gives the nearest integer, halves up |
| `Tours.StringLessExact` | src/modules/routes/utils/exhaustive-permutation.util.ts:83-86 | strings compare by the first character that differs, a proper prefix being less |
| `Exhaustive.SpaceIsTours` | src/modules/routes/utils/exhaustive-permutation.util.ts:52-64 | the searched orders are exactly the tours: all orders, or all that keep the origin first |
| `Exhaustive.LessIsTotal` | src/modules/routes/utils/exhaustive-permutation.util.ts:75-87 | duration, then distance, then joined ids is a strict total order |
| `Exhaustive.SumLegs` | src/modules/routes/utils/exhaustive-permutation.util.ts:65-73 | the running sums are the duration and the distance of the order |
| `Exhaustive.Keep` | src/modules/routes/utils/exhaustive-permutation.util.ts:75-93 | the tie-breaking keeps the lesser of two candidates |
| `Exhaustive.Scan` | src/modules/routes/utils/exhaustive-permutation.util.ts:57-94 | the scan ends with an order no enumerated one beats |
| `Exhaustive.Search` | src/modules/routes/utils/exhaustive-permutation.util.ts:52-94 | the order found is a tour that no tour beats |
| `Exhaustive.SolveExhaustive` | src/modules/routes/utils/exhaustive-permutation.util.ts:35-109 | the returned solution is that of a global optimum, for every N |
| `Exhaustive.BestIsLeast` | src/modules/routes/utils/exhaustive-permutation.util.ts:75-87 | an optimum takes the least time of all orders of all stops, of those it has the least distance, and of those the least joined ids |
| `Exhaustive.JoinIdsGrows` | src/modules/routes/utils/exhaustive-permutation.util.ts:83-86 | ids are joined in visiting order with commas between them |
| `Exhaustive.BestIsUnique` | src/modules/routes/utils/exhaustive-permutation.util.ts:75-94 | with different ids without commas the optimum is unique, so the tie-breaking is deterministic whatever the order of enumeration |
| `Exhaustive.SolutionIsUnique` | src/modules/routes/utils/exhaustive-permutation.util.ts:35-109 | and so is the solution |
| `TwoOpt.SwapAt` | src/modules/routes/utils/nearest-neighbor-2opt.util.ts:122-127 | the move is an exact reversal of the segment from i to j |
| `TwoOpt.SwapKeepsTour` | src/modules/routes/utils/nearest-neighbor-2opt.util.ts:122-127 | the move keeps a tour a tour, its origin fixed, and undoes itself |
| `TwoOpt.ComputeTour` | src/modules/routes/utils/nearest-neighbor-2opt.util.ts:129-143 | the loops compute the sum of the legs |
| `TwoOpt.NearestNeighbor` | src/modules/routes/utils/nearest-neighbor-2opt.util.ts:28-72 | a permutation of all stops from index 0 in which no open stop was nearer than the chosen one, with the same tie-breaking |
| `TwoOpt.NearerIsOrder` | src/modules/routes/utils/nearest-neighbor-2opt.util.ts:44-56 | the nearest-stop comparison is a strict weak order (irreflexive, transitive, its negation transitive), so the scan for it is sound |
| `TwoOpt.ImprovementAt` | src/modules/routes/utils/nearest-neighbor-2opt.util.ts:88-102 | the inner loop returns the first paying reversal at i, or none pays |
| `TwoOpt.FirstImprovement` | src/modules/routes/utils/nearest-neighbor-2opt.util.ts:87-104 | one scan returns a reversal that gains more than the threshold, or the tour is locally optimal |
| `TwoOpt.BudgetDrops` | src/modules/routes/utils/nearest-neighbor-2opt.util.ts:94-99 | each accepted swap lowers floor(cost / threshold), which stays at least zero |
| `TwoOpt.Improve` | src/modules/routes/utils/nearest-neighbor-2opt.util.ts:78-105 | each swap lowers the cost by more than the threshold; the loop ends, also without a cap, locally optimal or with the cap used up |
| `TwoOpt.SolveNearestNeighbor2Opt` | src/modules/routes/utils/nearest-neighbor-2opt.util.ts:9-120 | a tour with the origin first when fixed, never costlier than the greedy tour, locally optimal unless the cap ran out |
| `TwoOpt.DescentMeans` | src/modules/routes/utils/nearest-neighbor-2opt.util.ts:29-105 | behind that solution: an order of all stops, the origin first if it is fixed, no costlier than a greedy order less what the accepted reversals were worth |
| `TwoOpt.NoReversalPays` | src/modules/routes/utils/nearest-neighbor-2opt.util.ts:75-105 | and, unless the cap was used up, no order with one part of it reversed, behind a fixed origin, is cheaper by more than the threshold |
| `TwoOpt.GreedyIsNearest` | src/modules/routes/utils/nearest-neighbor-2opt.util.ts:36-60 | from each stop the greedy order goes on to one that is least in time, then in distance, then by id, among those still open |
| `TwoOpt.CapNotReached` | src/modules/routes/utils/nearest-neighbor-2opt.util.ts:83-85 | a cap worth more than the greedy cost never cuts the search short |
| `SolverComparison.ExhaustiveIsNoWorse` | src/modules/routes/utils/exhaustive-permutation.util.ts:102-108 | on any input both accept, the duration the exhaustive solver returns is at most the one the heuristic returns, and so are the exact ones behind them |
| `SolverComparison.BestIsShortest` | src/modules/routes/utils/exhaustive-permutation.util.ts:75-94 | a globally optimal tour takes no longer than any tour, exactly and rounded |
| `SolverComparison.OptimumIsLocallyOptimal` | src/modules/routes/utils/nearest-neighbor-2opt.util.ts:87-104 | an exhaustive optimum leaves no segment reversal anything to gain |
| `Sessions.FamilySafety` | src/modules/sessions/session.service.ts:124-188 | in every interleaving each family has at most one unrevoked session and each token rotates at most once; no row is unrevoked, moved or removed |
| `Sessions.ReuseIsDetected` | src/modules/sessions/session.service.ts:143-160 | presenting a revoked token, or losing the claim race, leads to the revocation of its family |
| `Sessions.ReuseKillsFamily` | src/modules/sessions/session.service.ts:190-198 | the family revocation leaves no active session in the family, whatever is in flight |
| `Sessions.DeadStaysDead` | src/modules/sessions/session.service.ts:150-168 | a family without an active session never gets one again |
| `Sessions.ReuseIsFatal` | src/modules/sessions/session.service.ts:124-198 | a revoked token that is presented ends its family for good, whatever runs before the revocation gets its turn and after it |
| `SessionLineage.ExchangeExact` | src/modules/sessions/session.service.ts:150-176 | a claim of an unrevoked row revokes it and opens one row of the same user and the same family, unrevoked for seven days, and changes no other |
| `SessionLineage.LineInFamily` | src/modules/sessions/session.service.ts:150-176 | over any run everything a token has been exchanged for, directly or over more exchanges, is in its family |
| `SessionLineage.ReuseRevokesLine` | src/modules/sessions/session.service.ts:124-198 | when a revoked token is presented again, every token it was ever exchanged for, directly or over more exchanges, is revoked once the family revocation has had its turn, whatever runs before, in between and after |
| `SessionLineage.RotateAlone` | src/modules/sessions/session.service.ts:124-198 | a rotation refuses an unknown token, costs a revoked or expired one its whole family and nothing else, and exchanges any other |
| `SessionLineage.DriverLoginExact` | src/modules/sessions/session.service.ts:45-84 | a driver's login revokes all of the user's sessions and nobody else's, and opens one in a family of its own for seven days |
| `SessionLineage.LoginExact` | src/modules/sessions/session.service.ts:88-121 | any other login revokes the first found, all but four, when it found five or more, and opens one in a family of its own for seven days |
| `SessionLineage.RevocationsExact` | src/modules/sessions/session.service.ts:229-285 | a logout revokes one session, a revocation of a user exactly that user's |
| `Sessions.DriversHaveOneSession` | src/modules/sessions/session.service.ts:45-84 | a user who only logs in as a driver never has two unrevoked sessions, whatever everyone else is and does |
| `Sessions.EverTwoExactly` | src/modules/sessions/session.service.ts:34-121 | over any run, whatever roles the logins read, a user with at most one unrevoked session ever has two if and only if a login that did not read the role DRIVER creates its session while one is unrevoked |
| `Sessions.TwoAfterRoleChange` | src/modules/users/users.service.ts:74-84 | after the revocation that follows a role change there are ever two exactly by such a create, and never for a user from then on a driver who has no older login in flight |
| `Sessions.OldLoginOpensSecond` | src/modules/users/users.service.ts:74-84 | a login begun before a change to DRIVER that creates its session after a driver login leaves two |
| `Sessions.SessionsFromEmpty` | src/modules/sessions/session.service.ts:34-188 | from an empty table, in every run: one unrevoked session per family, no token exchanged twice, and one unrevoked session for each user without such a create |
| `SessionCaps.LoginSteps` | src/modules/sessions/session.service.ts:88-113 | the steps of a login with nothing in between revoke the victims and create one session |
| `SessionCaps.LoginActive` | src/modules/sessions/session.service.ts:88-113 | a login ends exactly the victims, adds one session and touches nobody else |
| `SessionCaps.LoginCount` | src/modules/sessions/session.service.ts:93-102 | after a login the user has one more session than before, and never more than five |
| `SessionCaps.LoginEvictsOldest` | src/modules/sessions/session.service.ts:88-102 | no evicted session was refreshed after one that is kept |
| `SessionCaps.RotateKeepsCount` | src/modules/sessions/session.service.ts:150-168 | a rotation gives no user a further active session |
| `SessionLimit.ExceedsExactly` | src/modules/sessions/session.service.ts:45-113 | a step takes a user with at most five active sessions above five exactly when it is the last step of a login that did not read the role DRIVER and five are active |
| `SessionLimit.EverExceedsExactly` | src/modules/sessions/session.service.ts:45-113 | over any run, whatever roles the logins read, a user with at most five ever has more if and only if such a login creates its session while five are active |
| `SessionLimit.CapKept` | src/modules/sessions/session.service.ts:45-168 | in the interleaved machine a user keeps at most five while no second such login of theirs reads, and no session about to be evicted is rotated, between a login's read and its create; everyone else runs freely |
| `SessionLimit.NobodyAboveFive` | src/modules/sessions/session.service.ts:88-168 | so from an empty table |
| `SessionLimit.OverlappingLoginsExceedCap` | src/modules/sessions/session.service.ts:88-113 | two logins that both read four active sessions leave six |
| `SessionLimit.RotationDuringLoginExceedsCap` | src/modules/sessions/session.service.ts:93-168 | a login that has read five and the rotation of the one it is about to evict leave six |
| `SessionLimit.SixReached` | src/modules/sessions/session.service.ts:88-168 | both are reached from an empty table |
| `SessionStore.Store.Insert` | src/modules/sessions/session.service.ts:104-113 | a new session row, unrevoked for seven days, under a fresh id |
| `SessionStore.Store.CreateDriverSession` | src/modules/sessions/session.service.ts:45-84 | all the driver's active sessions are announced and revoked, then one is created |
| `SessionStore.Store.CreateSession` | src/modules/sessions/session.service.ts:88-121 | the eviction loop revokes and announces exactly the surplus over four, oldest first |
| `SessionStore.Store.ClaimAndCreate` | src/modules/sessions/session.service.ts:149-176 | the compare-and-set and the successor, or neither |
| `SessionStore.Store.RevokeTokenFamily` | src/modules/sessions/session.service.ts:190-198 | every row of the family is revoked and no other |
| `SessionStore.Store.RotateSession` | src/modules/sessions/session.service.ts:124-188 | unknown token, reuse with the family revoked, or a successor, each exactly when the row says so |
| `SessionStore.Store.RevokeSession` | src/modules/sessions/session.service.ts:229-261 | the session is revoked unless it is unknown or another user's |
| `SessionStore.Store.RevokeAllUserSessions` | src/modules/sessions/session.service.ts:263-285 | the user has no active session afterwards and nobody else loses one |
| `Connections.RunValid` | src/modules/realtime/services/ws-connection-manager.service.ts:24-115 | after any run of register, remove and disconnect, whatever roles and driver ids the sockets have, the five indexes agree with the live sockets, without empty entries |
| `Connections.AddRefines` | src/modules/realtime/services/ws-connection-manager.service.ts:193-201 | adding a socket to an index keeps it exact |
| `Connections.DeleteRefines` | src/modules/realtime/services/ws-connection-manager.service.ts:203-211 | removing a socket keeps the index exact and drops an entry that gets empty |
| `Connections.RegisterValid` | src/modules/realtime/services/ws-connection-manager.service.ts:24-75 | a registration adds one live socket and removes at most the superseded one |
| `Connections.RegisterLeaves` | src/modules/realtime/services/ws-connection-manager.service.ts:24-70 | a socket without a user is not registered; any other is live with its data and is its driver's, and the only other socket to go is the one the same driver had when the new one is a DRIVER's |
| `Connections.LookupByField` | src/modules/realtime/services/ws-connection-manager.service.ts:122-151 | users, sessions and devices are looked up by the field of that name |
| `Connections.LookupExact` | src/modules/realtime/services/ws-connection-manager.service.ts:122-151 | a lookup lists exactly the live sockets with the key, each once |
| `Connections.DisconnectExact` | src/modules/realtime/services/ws-connection-manager.service.ts:162-192 | a disconnect leaves exactly the live sockets without the key |
| `DriverSockets.LateRemovalIsHarmless` | src/modules/realtime/services/ws-connection-manager.service.ts:108-110 | the late removal of a superseded socket changes nothing and the driver keeps the newer one |
| `DriverSockets.RegisterExactly` | src/modules/realtime/services/ws-connection-manager.service.ts:33-70 | a registration leaves two live sockets of one driver if it brings a driver id without the DRIVER role while another live socket has that id; any other leaves each live socket the registered one of its driver |
| `DriverSockets.TwoLiveExactly` | src/modules/realtime/services/ws-connection-manager.service.ts:24-192 | over any run a driver ever has two live sockets if and only if the run has such a registration |
| `DriverSockets.DriverSocketUnique` | src/modules/realtime/services/ws-connection-manager.service.ts:33-53 | so with driver ids on DRIVER sockets only no driver ever has two |
| `DriverSockets.OtherRoleSlipsPast` | src/modules/realtime/services/ws-connection-manager.service.ts:36-53 | without that, two sockets can share a driver id |
| `Connections.Manager.RemoveSocket` | src/modules/realtime/services/ws-connection-manager.service.ts:77-115 | the hand-kept indexes after a removal |
| `Connections.Manager.RegisterSocket` | src/modules/realtime/services/ws-connection-manager.service.ts:24-75 | the hand-kept indexes after a registration, and which socket is told to go |
| `Connections.Manager.GetSockets` | src/modules/realtime/services/ws-connection-manager.service.ts:122-151 | the filtered ids are all of the entry: none is stale |
| `Connections.Manager.Disconnect` | src/modules/realtime/services/ws-connection-manager.service.ts:178-192 | the loop removes every live socket under the key and counts them |
| `CallSignalling.OneClaim` | src/modules/communication/services/call-session.service.ts:177-203 | accept, decline and timeout claim an invitation at most once between them, in any run |
| `CallSignalling.EndedStays` | src/modules/communication/services/call-session.service.ts:242-252 | ENDED is absorbing |
| `CallOutcomes.RespondExact` | src/modules/communication/services/call-session.service.ts:162-203 | an invitation is accepted for sixty minutes or declined within its thirty seconds, and afterwards stays as it is |
| `CallOutcomes.ClaimsExact` | src/modules/communication/services/call-session.service.ts:177-316 | in any interleaving: what a waiting response, watchdog or end leaves of the session it finds |
| `CallOutcomes.ServeExact` | src/modules/communication/services/call-session.service.ts:162-316 | the same for whole handlers |
| `CallOutcomes.LetInExactly` | src/modules/communication/services/call-session.service.ts:288-292 | a signal gets past authorization exactly in an ACTIVE session before its time is up; likewise for responses, watchdog and end |
| `CallOutcomes.HandleExact` | src/modules/realtime/gateways/realtime.gateway.ts:578-739 | a signal is accepted exactly if the session takes it, its timestamp is within thirty seconds, its nonce is not in use for a minute and its number is above the sender's last; it is then sent on unless it is a candidate over its limit |
| `CallOutcomes.SignalAlone` | src/modules/realtime/gateways/realtime.gateway.ts:578-739 | the calls of a lone signal handler add up to the whole handler |
| `CallOutcomes.ServedIsHandled` | src/modules/communication/services/call-session.service.ts:162-316 | serving requests as whole handlers is carrying the calls of each out with nothing in between |
| `CallOutcomes.EndSilences` | src/modules/communication/services/call-session.service.ts:242-292 | once a call has ended, in any interleaving nothing is accepted or relayed that was not past authorization before |
| `CallOutcomes.AfterHangUp` | src/modules/communication/services/call-session.service.ts:242-292 | with whole handlers nothing at all is accepted or relayed after the end |
| `CallSignalling.ScriptKeepsKey` | src/common/redis/redis.service.ts:243-257 | inside the session's time the sequence key holds the last accepted number and outlives the session |
| `CallSignalling.NumbersIncrease` | src/common/redis/redis.service.ts:243-257 | in a run whose sequence checks are all in time the numbers accepted from each sender strictly increase |
| `SignalOrder.CallKeepsOrder` | src/common/redis/redis.service.ts:247-253 | a step breaks the order of a sender's accepted numbers exactly when it is a sequence check that finds the sender's key expired and a number not above the one it held |
| `SignalOrder.OrderExactly` | src/common/redis/redis.service.ts:243-257 | over any run the numbers accepted from some sender ever fail to increase if and only if the run has such a check |
| `SignalOrder.StaleIsLate` | src/modules/communication/services/call-session.service.ts:177-190 | such a check runs after the session's time is up, because the 3600 s key outlives the session |
| `SignalOrder.InTimeIsNotStale` | src/modules/communication/services/call-session.service.ts:288-292 | so a run whose checks are all in time has none |
| `SignalOrder.AcceptedIsNew` | src/modules/realtime/gateways/realtime.gateway.ts:605-615 | outside such checks a number that passes is above all accepted from its sender before |
| `SignalOrder.RelayedAtMostOnce` | src/modules/realtime/gateways/realtime.gateway.ts:605-719 | in a run without such a check each accepted signal is relayed at most once, and nothing else is |
| `SignalOrder.OnlyCandidatesOvertaken` | src/modules/realtime/gateways/realtime.gateway.ts:704-718 | what is relayed below a number already relayed for its sender, other than by such a check, is a candidate that waited for its rate limit |
| `SignalOrder.OvertakenIsPassed` | src/modules/realtime/gateways/realtime.gateway.ts:683-719 | a waiting candidate goes out below a number already relayed for its sender exactly when a signal of that sender accepted after it was relayed before it |
| `SignalOrder.DisorderIsPassed` | src/modules/realtime/gateways/realtime.gateway.ts:617-719 | over any run without a stale check the relayed numbers of some sender ever fail to increase if and only if a candidate that waited goes out after a signal its sender had accepted later |
| `SignalOrder.OffersAndAnswersIncrease` | src/modules/realtime/gateways/realtime.gateway.ts:617-681 | in a run without a stale check offers and answers of one sender are relayed in strictly increasing order |
| `SignalOrder.NewCallKeepsOrder` | src/modules/realtime/gateways/realtime.gateway.ts:578-719 | from a new invitation without a stale check: accepted numbers and relayed offers and answers increase, nothing is relayed twice, and what is relayed loses its order exactly by such a candidate |
| `SignalOrder.CandidateOvertaken` | src/modules/realtime/gateways/realtime.gateway.ts:683-719 | a waiting candidate can be relayed after a later offer |
| `SignalOrder.LateCheckBreaksOrder` | src/modules/communication/services/call-session.service.ts:288-292 | a handler let in just before the end and held up past it relays a lower number |
| `SignalOrder.DisorderReached` | src/modules/realtime/gateways/realtime.gateway.ts:578-719 | both are reached from a new invitation |
| `SignalHandlers.WholeHandlersIncrease` | src/modules/realtime/gateways/realtime.gateway.ts:605-739 | with each handler one step, all numbers relayed for a sender strictly increase over the whole call |
| `SignalHandlers.NewCallIncreases` | src/modules/communication/services/call-session.service.ts:177-190 | so they do from any new invitation |
| `SignalHandlers.OrderKeptWhileAlive` | src/common/redis/redis.service.ts:247-253 | the script enforces the order exactly while the key is alive |
| `SignalHandlers.Service.SetNxEx` | src/common/redis/redis.service.ts:229-241 | claims a nonce key only when none is alive |
| `SignalHandlers.Service.VerifyAndSetSequence` | src/common/redis/redis.service.ts:243-262 | stores only a number above the live one |
| `SignalHandlers.Service.RespondToCall` | src/modules/communication/services/call-session.service.ts:162-203 | claims a pending, unexpired invitation; acceptance sets its 60 minutes |
| `SignalHandlers.Service.HandlePendingTimeout` | src/modules/communication/services/call-session.service.ts:305-316 | times out only an expired, pending invitation |
| `SignalHandlers.Service.EndCall` | src/modules/communication/services/call-session.service.ts:242-252 | ends a call that has not ended |
| `SignalHandlers.Service.ValidateAntiReplay` | src/modules/realtime/gateways/realtime.gateway.ts:578-615 | clean exactly when the skew, the nonce and the sequence number are |
| `SignalHandlers.Service.HandleSignal` | src/modules/realtime/gateways/realtime.gateway.ts:617-719 | a signal is relayed exactly when access, anti-replay and, for candidates, the rate limit let it |
| `RouteMutation.IdsExact` | src/modules/routes/services/routes-domain.service.ts:575-588 | the id check accepts exactly the orderings of a nonempty stop list |
| `RouteMutation.SequencesExact` | src/modules/routes/services/routes-domain.service.ts:590-599 | the sequence check accepts exactly the orderings of 1..N |
| `RouteMutation.AcceptedIsRenumbering` | src/modules/routes/services/routes-domain.service.ts:570-600 | an accepted reorder gives every stop one number and uses each of 1..N |
| `RouteMutation.PassExact` | src/modules/routes/services/routes-domain.service.ts:379-390 | after every single write of either pass: refused exactly if a write was blocked, otherwise where it should be and pairwise distinct |
| `RouteMutation.BlockedByLeftover` | src/modules/routes/services/routes-domain.service.ts:379-384 | a write of the first pass is blocked exactly by a waiting row that already holds its negated number |
| `RouteMutation.NothingBlocks` | src/modules/routes/services/routes-domain.service.ts:385-390 | no write of the second pass is ever blocked |
| `RouteMutation.RenumberExact` | src/modules/routes/services/routes-domain.service.ts:379-390 | from any distinct numbers both passes go through if and only if no such row exists, and then end as requested |
| `RouteMutation.PositiveRowsRenumber` | src/modules/routes/services/routes-domain.service.ts:379-390 | from positive numbers they always do, distinct after every write |
| `RouteMutation.ReorderDelivers` | src/modules/routes/services/routes-domain.service.ts:346-390 | a checked reorder of positively numbered stops ends with every stop at its requested number |
| `RouteMutation.StopTable.UpdateSequence` | src/modules/routes/services/routes-domain.service.ts:380-383 | one row update under the unique index |
| `RouteMutation.StopTable.WritePass` | src/modules/routes/services/routes-domain.service.ts:379-384 | an update loop does the specified pass |
| `RouteMutation.StopTable.ReorderStops` | src/modules/routes/services/routes-domain.service.ts:379-390 | both loops in their transaction: the requested numbers, or no change |
| `RouteSafety.CheckExact` | src/modules/routes/services/routes-domain.service.ts:201-211 | the checks before a transaction accept exactly plans that visit every stop once, numbered 1..N |
| `RouteSafety.RunSound` | src/modules/routes/services/routes-domain.service.ts:211-305 | every interleaving of route mutations keeps the history sound and only adds to it |
| `RouteSafety.HistoryExact` | src/modules/routes/services/routes-domain.service.ts:229-255 | after any run a delivery's versions are exactly 1..k, each once and in order, and every plan is an ordering of its stops |
| `RouteSafety.RoutesNeverChange` | src/modules/routes/services/routes-domain.service.ts:236-255 | a committed route and a stored result never change later |
| `RouteSafety.OneRoutePerKey` | src/modules/routes/services/routes-domain.service.ts:216-300 | calls with one key, user and endpoint create at most one route, and all their successful replies carry it, never a placeholder |
| `RouteSafety.NeverFails` | src/modules/routes/services/routes-domain.service.ts:286-305 | no call that passed its checks fails: the version index is never hit and every lost race finds a result to replay |
| `RouteSafety.NoDeadlock` | src/modules/routes/services/routes-domain.service.ts:212-227 | while any call is unanswered some call can go on, although calls wait for row locks and keys |
| `RouteSafety.CommitSound` | src/modules/routes/services/routes-domain.service.ts:229-284 | a commit under the lock takes the next free version |
| `RouteOutcomes.CreatedLeaves` | src/modules/routes/services/routes-domain.service.ts:212-285 | in any run the step that answers a call as created, and no other step, changes the store: its route with the plan asked for under the next version, every stop of a reorder at its requested number, no number changed by a selection or on another delivery, and the result stored under its key only |
| `RouteOutcomes.MutateExact` | src/modules/routes/services/routes-domain.service.ts:169-311 | a lone call on a sound store: unknown delivery, replay, refusal with its reason, or exactly that commit |
| `RouteOutcomes.RefusalExact` | src/modules/routes/services/routes-domain.service.ts:570-600 | the reason of a refusal: a foreign stop, then stops missing or repeated, then numbers that are not 1..N |
| `RouteSafety.CommitTouches` | src/modules/routes/services/routes-domain.service.ts:212-285 | only a commit changes the store, and only for its own delivery and key |
| `RouteSafety.OthersKept` | src/modules/routes/services/routes-domain.service.ts:561-563 | what another call holds inside its transaction is untouched, by the lock and the claimed key |
| `RouteSafety.CreatedIsNew` | src/modules/routes/services/routes-domain.service.ts:236-284 | a call replies that it created a route exactly when it did, under a fresh id |
| `RouteHistory.MaxIsCount` | src/modules/routes/services/routes-domain.service.ts:229-234 | the highest version of a delivery is the number of its routes |
| `RouteHistory.VersionsExact` | src/modules/routes/services/routes-domain.service.ts:229-246 | a version is taken exactly when it lies in 1..k |
| `RouteHistory.VersionsUnique` | src/modules/routes/services/routes-domain.service.ts:229-246 | later routes of a delivery have higher versions |
| `RouteStore.Unopposed` | src/modules/routes/services/routes-domain.service.ts:169-311 | the steps of a call that nobody holds up do what the whole call does |
| `RouteStore.Tables.ClaimRow` | src/modules/routes/services/routes-domain.service.ts:214-227 | creates the pending row unless the key has one |
| `RouteStore.Tables.WriteNumbers` | src/modules/routes/services/routes-domain.service.ts:379-390 | the reorder loops over the transaction's view of the stops |
| `RouteStore.Tables.CreateRoute` | src/modules/routes/services/routes-domain.service.ts:229-282 | the next version, the route, and the result stored over the placeholder |
| `RouteStore.Tables.MutateTx` | src/modules/routes/services/routes-domain.service.ts:212-285 | the whole transaction, or no change |
| `RouteSafety.RecoveringReplays` | src/modules/routes/services/routes-domain.service.ts:286-305 | a call that lost a race and recovers answers with the stored result of a committed route |
| `RouteStore.Tables.Mutate` | src/modules/routes/services/routes-domain.service.ts:169-311 | replay, checks, transaction and recovery equal the specified call |
| `Limiter.SlotsConserved` | src/modules/pod/services/image-normalizer.service.ts:49-87 | in any run the counter is the number of holders, at most two, and nobody waits at a free slot |
| `Limiter.FirstComeFirstServed` | src/modules/pod/services/image-normalizer.service.ts:55-87 | those let in and those still queued are the arrivals that did not time out, in order, none twice |
| `Limiter.SettledOnce` | src/modules/pod/services/image-normalizer.service.ts:55-76 | every queued call is queued with its timer armed, let in, or timed out, never two of these, and the last two are final |
| `Limiter.ReleaseSound` | src/modules/pod/services/image-normalizer.service.ts:78-87 | a release hands over the slot or lowers a counter that is at least one, so the clamp never fires |
| `Limiter.TimeoutSound` | src/modules/pod/services/image-normalizer.service.ts:56-66 | an armed timer always finds its call in the queue |
| `Limiter.AcquireExact` | src/modules/pod/services/image-normalizer.service.ts:49-76 | a call that comes while fewer than two slots are held has one at once, any other goes to the end of the queue behind an armed timer |
| `Limiter.ReleaseExact` | src/modules/pod/services/image-normalizer.service.ts:78-87 | a release gives the slot to the first in the queue and stops its timer, or frees it |
| `Limiter.TimeoutExact` | src/modules/pod/services/image-normalizer.service.ts:56-66 | a timer that runs out takes its call and no other out of the queue |
| `Limiter.ImageNormalizer.AcquireConcurrencySlot` | src/modules/pod/services/image-normalizer.service.ts:49-76 | takes a slot exactly when one is free, otherwise queues |
| `Limiter.ImageNormalizer.OnTimeout` | src/modules/pod/services/image-normalizer.service.ts:56-66 | the spliced queue |
| `Limiter.SpliceIsWithout` | src/modules/pod/services/image-normalizer.service.ts:57-60 | splicing at the position found takes out the timed-out call and keeps the others in order |
| `Limiter.ImageNormalizer.ReleaseConcurrencySlot` | src/modules/pod/services/image-normalizer.service.ts:78-87 | the first waiter is resumed, or the counter drops by exactly one |
| `Revocation.NeverForgotten` | src/common/redis/redis.service.ts:156-184 | after a revocation failed or took effect no isRevoked started within fifteen minutes answers false, whatever overlaps, unless the key was lost first |
| `Revocation.RevocationForgottenExactly` | src/common/redis/redis.service.ts:156-203 | after a revocation failed or took effect, an isRevoked within fifteen minutes would ever answer false, at some point of a run, if and only if the run loses the key |
| `Revocation.ForgottenExactly` | src/common/redis/redis.service.ts:156-203 | the same for any key that is remembered or stored until a deadline |
| `Revocation.CoveredExactly` | src/common/redis/redis.service.ts:156-168 | a key is remembered or stored until a deadline exactly when no isRevoked before it would answer false |
| `Revocation.CoveredStep` | src/common/redis/redis.service.ts:156-203 | one step loses a key exactly by dropping its mark, through an acknowledgement or a displacement, while Redis does not hold it that long |
| `Revocation.MarkedStep` | src/common/redis/redis.service.ts:170-203 | a mark is lost before its time exactly by an acknowledged write of the key or by displacement from the head of a full map |
| `Revocation.FailedWriteAnswersNull` | src/common/redis/redis.service.ts:156-195 | after a failed write isRevoked answers null until the key is written or displaced |
| `Revocation.RevokesCovers` | src/common/redis/redis.service.ts:170-195 | a failed write is remembered, and a SET that took effect stored, for fifteen minutes |
| `Revocation.RunBounded` | src/common/redis/redis.service.ts:186-195 | with non-empty keys the map never exceeds 10,000 entries |
| `Revocation.OverflowsExactly` | src/common/redis/redis.service.ts:186-195 | a mark takes a map of at most 10,000 entries above it exactly when the pruned map is full, lacks the key and has an empty key at its head |
| `Revocation.EverOverExactly` | src/common/redis/redis.service.ts:156-203 | over any run, whatever the keys, the map ever exceeds its limit if and only if a mark meets that |
| `Revocation.EmptyHeadOverflows` | src/common/redis/redis.service.ts:188-194 | an empty key at the head of a full map stops eviction |
| `Revocation.FreshFailureDisplaced` | src/common/redis/redis.service.ts:186-195 | a key that fails again keeps its place: at the head of a full map the next new failure displaces it |
| `Revocation.LateAcknowledgementForgets` | src/common/redis/redis.service.ts:176-184 | the late acknowledgement of an earlier SET drops the mark of a later failure, and isRevoked can then answer false |
| `Revocation.LossReached` | src/common/redis/redis.service.ts:156-203 | that happens to an empty service: isRevoked answers false within fifteen minutes of the failed write |
| `Revocation.MarkElements` | src/common/redis/redis.service.ts:186-203 | what the map holds after a mark |
| `RevocationOutcomes.MarkExact` | src/common/redis/redis.service.ts:186-195 | a key that is marked again keeps its place, a new one goes to the end, and of 10,000 the oldest goes |
| `RevocationOutcomes.AskExact` | src/common/redis/redis.service.ts:156-168 | isRevoked answers null for an uncertain key or without an answer from Redis, and otherwise whether Redis still has the key |
| `RevocationOutcomes.SetThenAsk` | src/common/redis/redis.service.ts:156-195 | an acknowledged revocation is answered with true for fifteen minutes, a failed one with null, and each afterwards with what Redis has |
| `RevocationOutcomes.EventsLeave` | src/common/redis/redis.service.ts:156-203 | asking clears the expired marks and no other, and a reply that throws makes its key uncertain for fifteen minutes |
| `Revocation.RedisService.PruneUncertainRevocationKeys` | src/common/redis/redis.service.ts:197-203 | the loop removes exactly the expired entries |
| `Revocation.RedisService.MarkRevocationUncertain` | src/common/redis/redis.service.ts:186-195 | prune, evict, set |
| `Revocation.RedisService.SetRevocation` | src/common/redis/redis.service.ts:170-184 | each outcome of the SET has the specified effect on Redis and the map |
| `Revocation.RedisService.IsRevoked` | src/common/redis/redis.service.ts:156-168 | null, or what Redis says, as specified |
| `CacheUpdates.LowersExactly` | src/modules/tracking/services/tracking-cache.service.ts:37-63 | a step lowers the cached date exactly when it writes what its read allowed while the date cached by now is later |
| `CacheUpdates.StaleExactly` | src/modules/tracking/services/tracking-cache.service.ts:37-63 | over any run of overlapping dated updates the cache ever holds another than the latest finished one if and only if the run has such a write |
| `CacheUpdates.GreatestFromNothing` | src/modules/tracking/services/tracking-cache.service.ts:37-63 | so without one the cached date is the greatest of all finished updates |
| `CacheUpdates.OverlapLeavesOlder` | src/modules/tracking/services/tracking-cache.service.ts:37-63 | with one the older of two updates stays |
| `CacheUpdates.AloneIsSetLatest` | src/modules/tracking/services/tracking-cache.service.ts:27-63 | an update with nothing between its read and its write is the whole update |
| `LocationCache.CacheIsLatest` | src/modules/tracking/services/tracking-cache.service.ts:27-63 | after any updates one after another the cache holds the point with the greatest date, the first to arrive among equals |
| `LocationCache.OrderDoesNotMatter` | src/modules/tracking/services/tracking.service.ts:315-339 | in particular a batch whose points share no idempotency key ends with the same cached date and the same refusals, replays and ingestions in any order |
| `LocationCache.FatesMet` | src/modules/tracking/services/tracking.service.ts:79-163 | each point of such a batch meets a fate that depends on nothing else in the batch, and the cached date is the latest of the kept ones |
| `LocationOutcomes.ProcessExact` | src/modules/tracking/services/tracking.service.ts:79-236 | one point: refused for its first failing check, replayed with the recorded status, or stored with its flag, recorded under its key, and cached if it may be |
| `LocationOutcomes.ChecksExact` | src/modules/tracking/services/location-validation.service.ts:20-60 | the limits of a point: the earth, 50 m of accuracy, five minutes ahead and an hour behind |
| `LocationOutcomes.FlagExact` | src/modules/tracking/services/location-validation.service.ts:62-105 | a point is flagged exactly when it is later than the cached one and more than 41.67 m/s away from it |
| `LocationOutcomes.StoredExact` | src/modules/tracking/services/tracking.service.ts:315-339 | a batch stores exactly the points it ingested and did not replay, in order, each with its flag |
| `LocationOutcomes.SuccessesExact` | src/modules/tracking/services/tracking.service.ts:315-339 | the accepted results of a batch are those of its ingested points, in order |
| `BatchOrder.DateOrderIndependent` | src/modules/tracking/services/tracking.service.ts:315-339 | for every batch: the cached date is the same for every order of its points if and only if each stored-if-first point is no later than the cache before the batch or than the earliest such point of some key |
| `BatchOrder.DateExact` | src/modules/tracking/services/tracking.service.ts:104-236 | for every batch and any keys the cached date is the latest of the date before it and of the points that are the first of their key to pass the checks |
| `BatchOrder.RecordsExact` | src/modules/tracking/services/tracking.service.ts:104-222 | the keys recorded after a batch are those before it and those of its points that pass the checks |
| `BatchFates.KindsOrderIndependent` | src/modules/tracking/services/tracking.service.ts:315-339 | for every batch: the refusals, replays and ingestions are the same for every order of its points if and only if no point that fails its own checks has the key of one that is first to pass and be recorded under it |
| `BatchFates.KindsExact` | src/modules/tracking/services/tracking.service.ts:104-222 | without such a pair they are what the keys recorded in the end make of the points, with one replay turned into an ingestion for each key recorded |
| `BatchFates.ClashFirst` | src/modules/tracking/services/tracking.service.ts:104-163 | with such a pair at the front, the two orders of it come to different refusals and replays |
| `LocationCache.SharedKeyOrderMatters` | src/modules/tracking/services/tracking.service.ts:104-132 | two points under one key: the order decides the cached date |
| `LocationCache.FlagsDependOnOrder` | src/modules/tracking/services/location-validation.service.ts:62-105 | velocity flags do depend on the order |
| `LocationCache.NoneUncounted` | src/modules/tracking/services/tracking.service.ts:360-365 | accepted plus rejected is the batch size |
| `LocationCache.ErrorsExact` | src/modules/tracking/services/tracking.service.ts:327-338 | the errors are exactly the rejected points with their index and code |
| `LocationCache.TrackingService.WriteIfNewer` | src/modules/tracking/services/tracking-cache.service.ts:41-63 | the half after the read overwrites whatever is cached by now exactly when either date is invalid or the new one is strictly later than the one read |
| `LocationCache.TrackingService.SetLatestLocation` | src/modules/tracking/services/tracking-cache.service.ts:27-63 | with nothing between read and write the cache is overwritten exactly when either date is invalid or the new one is strictly later |
| `LocationCache.TrackingService.ProcessTelemetry` | src/modules/tracking/services/tracking.service.ts:79-236 | delivery checks, replay, validation, persistence, record and cache in the source's order |
| `LocationCache.TrackingService.ProcessBatch` | src/modules/tracking/services/tracking.service.ts:311-365 | the loop accepts or rejects every point in order, and ends with the specified tables |

## Left out

Contracts stated for less than one might ask, and why:

- PodAnswers.RepliesAgree: for keys that the clients use for one stop only; the exact condition for any keys is `PodAnswers.AnswersDifferExactly`.
- PodCoverage.DeliveredHasPod: for runs without the overrides that make it false, exactly those of `PodCoverage.UncoveredExactly`.
- SignalOrder.RelayedAtMostOnce: for runs without a stale check.
- SignalOrder.OffersAndAnswersIncrease: for runs without a stale check, and without candidates, which can be overtaken; `SignalOrder.DisorderIsPassed` is about everything relayed.
- SignalOrder.DisorderIsPassed: for runs without a stale check.
- SignalOrder.NewCallKeepsOrder: for runs without a stale check.
- Sessions.DriversHaveOneSession: for users who log in as drivers only; `Sessions.EverTwoExactly` is the exact condition for everyone.
- CallSignalling.NumbersIncrease: for runs whose sequence checks are in time; `SignalOrder.OrderExactly` has the exact condition, and `SignalHandlers.WholeHandlersIncrease` takes each handler as one step and needs none.
- SessionLimit.CapKept: for users whose logins are not disturbed; the exact condition is `SessionLimit.EverExceedsExactly`.
- Connections.RunValid: a socket id that is registered again while live carries the same identity data, as the gateway has it.
- DriverSockets.TwoLiveExactly: for socket ids that are not empty.
- LocationCache.CacheIsLatest: for updates that do not overlap; `CacheUpdates.StaleExactly` is about those that do.
- LocationCache.OrderDoesNotMatter: for batches whose points share no key, the exact conditions are `BatchOrder.DateOrderIndependent` for the date and `BatchFates.KindsOrderIndependent` for the rest.
- DeliveryStore.Store.SyncOutbox: each event of the loop runs with nothing in between; other requests come in between in the state machine, whose steps include the filing of a ticket.
- TwoOpt.Improve: durations must be non-negative only when there is no iteration cap.
- Revocation.NeverForgotten: for runs that do not lose the key, which is exact by `Revocation.RevocationForgottenExactly`; Redis itself keeps what it has stored, and every caller's lifetime of 900 seconds is a constant.
- Limiter.ReleaseSound: a holder gives its slot back once, as the callers' `finally` does.

Not modelled:

- Role changes as such: a login acts on the role it read, and any user may log in with any role; the revocation that follows a change is a step.
- Authorization by role, ownership or driver assignment, DTO validation, rate limits other than the candidate limit, audit logs, broadcasts, notifications and events: single checks or output around the modelled steps.
- Database errors and process crashes between two calls of a handler: a failed auto-complete is only logged by the source and then is lost, as a crash would lose it.
- Isolation anomalies below one statement or one transaction; evaluation and claim are separate steps although one transaction holds both.
- Interleavings inside assign, accept and start, which write unconditionally after their reads.
- Idempotency records of other endpoints, other users or other deliveries in the POD model; expiry and deletion of records.
- The contents of PODs, routes' totals and timestamps, and the route mode written to the delivery.
- The delivery status check in front of a route mutation: it runs before the lock, so nothing is claimed about routes of terminal deliveries.
- Floating point: costs, distances and speeds are exact reals, so infinities, NaN and rounding errors do not occur; `Math.round` is modelled exactly. Strings are ordered by their characters.
- The distance formula and the routing provider: matrices and distances are arbitrary.
- JWT, hashing and token generation: a row id stands for its token, and fresh ids do not repeat.
- Overlapping ingestion of points under one idempotency key: within a batch points follow one another, and a second request with the key between a point's lookup and its record is not covered.
- Redis outages in the sequence and nonce checks and in the location cache, where the source fails open or skips; the 24-hour expiry of the cache.
- Announcements of revoked sessions to Redis during login and logout, beyond which sessions they name.
- Heartbeat timers and socket notices of the connection manager.
- `latestBroadcast` of a batch: it pairs positions of accepted points with positions of all points.
- Speed and heading of a location, which are carried along unread.
- Emergencies, chat, fleet queries, file storage and the image pipeline itself.
