# TarsCpp client core, modelled and proved in Dafny

TarsCpp is an RPC framework.  This project models the logic of its client side that is hardest to get
right and proves what that logic is for:

- **Choosing an endpoint** (`WeightedRouter`, `SchedulePeriod`, `ScheduleCycle`, `TiedWeights`, `RouterTable`,
  `EndpointScheduler`, `ConsistentHash`, `EndpointLists`, `StaleRings`, `RegistryRefresh`, `RegistryTiming`,
  `RegistryLists`): the smooth weighted round-robin tables and their counting theorem, the consistent-hash probe
  loops over shared maps, and the registry-refresh state machine with the lists it puts into use.
- **The life of a request** (`TimeoutQueue`, `RequestLifecycle`, `LifecycleRuns`, `SendOrder`, `Deadlines`,
  `Connections`, `ParallelReplies`, `AdapterConnection`, `ObjectQueue`, `ObjectRuns`, `ObjectTimeouts`,
  `ObjectCauses`, `Handover`, `HandoverRuns`, `DisposedCalls`): from the object queue to one adapter, through unsent
  and sent-and-waiting, to its end; requests are sent in order and once, time out when they are late and not
  before, and replies are paired with them by order alone in serial mode and by id in parallel mode.
- **Shielding bad nodes** (`CircuitBreaker`, `ShieldHistory`): what the counters mean over whole histories, exactly
  when a node is shielded, comes back and may be tried again, and how far apart its probes are.
- **Futures** (`FutureWatchers`, `FutureSettlement`, `WhenAll`, `WhenAllWatchers`): every interleaving of critical
  sections and atomic steps.
- **Sequence ids** (`SequenceIds`): an intrusive free list that is a FIFO queue.
- **Framing** (`Framing`, `FramingVerdicts`): length-prefixed packets under arbitrary fragmentation, and the writer.
- **Statistics** (`Statistics`, `StatReporting`, `StatPipeline`): conservation of call figures from the
  call to the report packets.

`Basics` holds the few definitions that several modules share.

Objects whose methods update fields are classes whose methods follow the source statement by statement
and are proved against functions on values; the results over runs are lemmas about those functions.
What the environment decides (send outcomes, the answers of the circuit breaker or of endpoint
selection, clock readings, hashing) is a parameter, so every result holds for all its choices.

## Where the code and its promises part

- `TC_Transceiver::sendRequest` may throw after a hard socket error.  Inside `AdapterProxy::invoke` the
  message is then neither held nor finished; this is the only way to lose one
  (`LifecycleRuns.RunLedger`, `LifecycleRuns.ThrowLosesMessage`).
- The consistent-hash lookup reads one node past the end exactly when the code equals the last hash of
  a ring whose first hash is smaller (`ConsistentHash.PositionInBounds`, `ConsistentHash.LookupCanOverrun`).
- A consistent-hash ring can be stale: emptied by an eviction with its last map still equal to the index
  (`StaleRings.EvictedForGood`), or, when the weight type goes from static to another and back, built before a
  weight was lost whose flag the search on the other ring has cleared in between (`StaleRings.WeightLossUnseen`).
  What the probe loops then find is exact (`ConsistentHash.EndpointManager.Probe`).
- A reply can complete another request than the one it answers, or none, exactly when a held message
  shares its id with another message or has id zero (`ParallelReplies.RepliesRightIffAlone`); two
  `rpc_call`s with one id do it (`ParallelReplies.ReusedIdMispairs`).  With no id used twice it never happens
  (`ParallelReplies.LateReply`).
- The weighted schedule is periodic for all weights (`ScheduleCycle.AlwaysPeriodic`), but one turn need not be
  a period: it repeats the counts (`SchedulePeriod.EveryTurnServesExactly`), not always the order of equal scaled
  weights (`TiedWeights.TieOrderChanges`).  Different scaled weights need only one turn
  (`SchedulePeriod.DifferentWeightsRepeat`).
- A watcher appended while a future settles can be missed, in exactly one family of interleavings
  (`FutureWatchers.RanOnceUnlessMissed`, `FutureWatchers.WatcherCanBeMissed`); a joint promise whose callback
  is missed is never set (`WhenAllWatchers.JointUnlessMissed`).
- An endpoint list pushed from another thread makes a manager valid without the notification that sends
  off waiting calls (`RegistryRefresh.NotifiedOnce`, `RegistryRefresh.PushedListIsSilent`).  It stays in use
  until the registry names other endpoints than before, and if it is empty the proxies have no active endpoint
  that long (`RegistryLists.LastPushHolds`).
- Endpoints are compared by type, host and port, so an answer that changes only their weights reaches neither
  the proxies nor the cache file (`RegistryLists.AnswerWeights`, `RegistryLists.WeightsFrozen`,
  `RegistryLists.IgnoredWeight`).
- `prepareConnection` stops at the first message whose selection fails or whose sending throws and leaves the
  messages behind it (`Handover.DrainsIff`, `HandoverRuns.FailedSelectionStrands`, `HandoverRuns.ThrowStrands`), and
  sends every other message to the last adapter selected in the loop, which need not be the one it was bound
  to (`Handover.ReachesIff`, `HandoverRuns.BoundMessageGoesElsewhere`).
- Of the messages that the object proxy disposes of itself, asynchronous calls without a callback are left to
  nobody, and a callback is deleted uncalled exactly when its coroutine waits for no parallel call, or when it
  belongs to the callback threads and no adapter was selected for the call (`DisposedCalls.DisposedFates`,
  `DisposedCalls.RefusedUntold`).
- A statistics entry too big for a packet of its own, when first, makes `reportMicMsg` send an empty
  packet before it (`StatReporting.CutIsGreedy`, `StatReporting.EmptyPacketSent`).
- A request over 100 MB is written with a prefix that the receiver refuses or that cuts the request
  short (`Framing.WrittenRequestIsFrame`).

## Model

| member | source | states |
|---|---|---|
| `WeightedRouter.RoundTotals` | servant/libservant/EndpointManager.cpp:1805-1830 | A scheduling round leaves the sum of the current weights as it was. |
| `WeightedRouter.InsertPlaces` | servant/libservant/EndpointManager.cpp:1785-1803 | An entry goes behind those of no greater key and before those of a greater one. |
| `WeightedRouter.RoundBalanced` | servant/libservant/EndpointManager.cpp:1805-1830 | One round keeps the whole balance: sorted keys, the same endpoints, both sums equal to the total W, and every current weight at least w_i - W + 1; the keys become the old ones plus one credit each, minus W for the endpoint served. |
| `WeightedRouter.RunBalanced` | servant/libservant/EndpointManager.cpp:1805-1830 | That balance holds after any number of rounds. |
| `WeightedRouter.CreditsMinusTurns` | servant/libservant/EndpointManager.cpp:1805-1830 | After k rounds the current weight of an endpoint is (k + 1) w_i minus W times the number of times it was served. |
| `WeightedRouter.CurrentWeightBounds` | servant/libservant/EndpointManager.cpp:1805-1830 | Every current weight stays between w_i - W + 1 and w_i + (m - 1)(W - 1). |
| `WeightedRouter.ServedExactly` | servant/libservant/EndpointManager.cpp:1785-1830 | In W rounds each endpoint is served exactly w_i times and every current weight is back at its starting value. |
| `WeightedRouter.PrefixFairness` | servant/libservant/EndpointManager.cpp:1805-1830 | In every prefix of k rounds served_i * W < k * w_i + W, and nobody is more than (m - 1)(W - 1) credits behind. |
| `WeightedRouter.HeaviestServed` | servant/libservant/EndpointManager.cpp:1805-1830 | Every round serves an endpoint whose current weight is the greatest. |
| `SchedulePeriod.RunSplit` | servant/libservant/EndpointManager.cpp:1805-1830 | A run of the scheduler can be cut anywhere: the rest is a run from the state reached. |
| `SchedulePeriod.EveryTurnServesExactly` | servant/libservant/EndpointManager.cpp:1805-1830 | Every turn of W rounds, not only the first, serves each endpoint exactly w_i times. |
| `SchedulePeriod.PeriodIff` | servant/libservant/EndpointManager.cpp:1805-1830 | A number of rounds is a period of the schedule if and only if it restores the multimap, order of ties included. |
| `SchedulePeriod.TurnReturns` | servant/libservant/EndpointManager.cpp:1805-1830 | When no two scaled weights are equal, one turn restores the multimap. |
| `SchedulePeriod.DifferentWeightsRepeat` | servant/libservant/EndpointManager.cpp:1805-1830 | Then one turn is a period. |
| `ScheduleCycle.AlwaysPeriodic` | servant/libservant/EndpointManager.cpp:1805-1830 | For all weights the whole schedule is periodic: some number of turns is a period. |
| `ScheduleCycle.TurnsInOrder` | servant/libservant/EndpointManager.cpp:1805-1830 | The k-th turn leaves the ids permuted by the k-th power of one permutation of positions, which depends only on the scaled weights. |
| `ScheduleCycle.PeriodOfWeights` | servant/libservant/EndpointManager.cpp:1805-1830 | Routers with the same scaled weights, whatever their ids and order of ties, have the same periods. |
| `TiedWeights.ThreeRoundsRotate` | servant/libservant/EndpointManager.cpp:1805-1830 | Among three endpoints of equal weight three rounds serve each once and rotate them. |
| `TiedWeights.ThreeEqualPeriod` | servant/libservant/EndpointManager.cpp:1805-1830 | For three endpoints of equal scaled weight x, d turns are a period if and only if d x is a multiple of three. |
| `TiedWeights.ThreeEqualReached` | servant/libservant/EndpointManager.cpp:1769-1803 | Three weights of 7 scale to 10 each and load that multimap. |
| `TiedWeights.TieOrderChanges` | servant/libservant/EndpointManager.cpp:1805-1830 | With scaled weights 10, 10, 10 the first turn begins with endpoint 2 and the second with endpoint 0; three turns restore the order, one and two do not. |
| `RouterTable.ScaledBounds` | servant/libservant/EndpointManager.cpp:1769-1787 | Positive weights scale into 0..iMaxR with iMaxR between the two limits, and a heaviest endpoint gets iMaxR. |
| `RouterTable.RangeSpreads` | servant/libservant/EndpointManager.cpp:1769-1783 | iMaxR is the whole quotient of the heaviest weight by the lightest, kept within the two limits. |
| `RouterTable.ScaledShares` | servant/libservant/EndpointManager.cpp:1769-1787 | Every positive weight w scales to the whole part of w iMaxR / M, where M is the heaviest. |
| `RouterTable.ZeroKeepsWeights` | servant/libservant/EndpointManager.cpp:1778-1787 | With a zero among them the weights are taken as they are. |
| `RouterTable.TableCounts` | servant/libservant/EndpointManager.cpp:1785-1830 | Over any distinct endpoint ids the table holds each id exactly its scaled weight times, or once when that is 0. |
| `RouterTable.DispatchTableCounts` | servant/libservant/EndpointManager.cpp:1724-1831 | The same for dispatchEndpointCache: index i occurs exactly as often as its scaled weight says. |
| `RouterTable.DispatchShares` | servant/libservant/EndpointManager.cpp:1724-1831 | In terms of the weights alone: index i has max(1, w_i iMaxR / M) places, rounded down, when all weights are positive, and max(1, w_i) otherwise. |
| `RouterTable.IdleFirst` | servant/libservant/EndpointManager.cpp:1785-1830 | The table begins with the endpoints scaled to nothing, in order, and they do not come again. |
| `RouterTable.TableOfRenamed` | servant/libservant/EndpointManager.cpp:1268-1318 | Building the table over other ids gives the renamed table, multimap ties included. |
| `EndpointScheduler.BuildersSimulate` | servant/libservant/EndpointManager.cpp:1194-1319 | The hash table is the image, under the positive-weight index map, of the table dispatchEndpointCache builds from the filtered weights. |
| `EndpointScheduler.PositiveListed` | servant/libservant/EndpointManager.cpp:1208-1219 | The index map holds every position of positive weight. |
| `EndpointScheduler.PositiveAscends` | servant/libservant/EndpointManager.cpp:1208-1219 | It holds them in ascending order. |
| `EndpointScheduler.HashShares` | servant/libservant/EndpointManager.cpp:1194-1319 | In terms of the weights alone: a position of positive weight has its share of the hash table, at least one place, and any other none. |
| `EndpointScheduler.HashTableEmpty` | servant/libservant/EndpointManager.cpp:1221-1225 | Without a positive weight the hash table is empty. |
| `EndpointScheduler.EndpointManager.WeightRange` | servant/libservant/EndpointManager.cpp:1751-1767 | The scan returns the smallest and the largest weight. |
| `EndpointScheduler.EndpointManager.LoadRouter` | servant/libservant/EndpointManager.cpp:1785-1803 | Scaling and loading produce the router the counting results are about. |
| `EndpointScheduler.EndpointManager.ServeOne` | servant/libservant/EndpointManager.cpp:1807-1829 | The reverse pass over the multimap picks its last entry and rebuilds exactly one round. |
| `EndpointScheduler.EndpointManager.ServeAll` | servant/libservant/EndpointManager.cpp:1805-1830 | The outer loop appends the picks of W rounds. |
| `EndpointScheduler.EndpointManager.DispatchEndpointCache` | servant/libservant/EndpointManager.cpp:1724-1831 | The in-place builder leaves exactly the router table of the weights and resets the position; an empty list changes nothing. |
| `EndpointScheduler.EndpointManager.PositiveProxys` | servant/libservant/EndpointManager.cpp:1208-1219 | The filter finds exactly the positions of positive weight and clears every change flag. |
| `EndpointScheduler.EndpointManager.UpdateHashProxyWeighted` | servant/libservant/EndpointManager.cpp:1194-1319 | The second builder leaves exactly the hash table of the weights and the proxies it was built from (neither without bStatic), and clears the change flags of all registered proxies. |
| `EndpointScheduler.MachineRoundIffFits` | servant/libservant/EndpointManager.cpp:1818-1822 | A round computed with narrowed keys is the mathematical round if and only if every new current weight fits an int. |
| `EndpointScheduler.MachineRoundExact` | servant/libservant/EndpointManager.cpp:1769-1830 | In every round the narrowed keys are the mathematical ones whenever m * m * (largest scaled weight) < 2^31. |
| `EndpointScheduler.NarrowedKey` | servant/libservant/EndpointManager.cpp:1818-1822 | A narrowed key differs from the mathematical one by a multiple of 2^32, fitting or not. |
| `ConsistentHash.NodePosition` | util/src/tc_consistent_hash_new.cpp:252-284 | The binary search reads the first node outside the range of the ring, and otherwise the first node with a greater hash. |
| `ConsistentHash.PositionInBounds` | util/src/tc_consistent_hash_new.cpp:261-282 | The read is within the ring if and only if the code is not the last hash of a ring whose first hash is smaller. |
| `ConsistentHash.LookupCanOverrun` | util/src/tc_consistent_hash_new.cpp:261-282 | Two virtual nodes and one code for which the read is past the end. |
| `ConsistentHash.EndpointManager.constructor` | servant/libservant/EndpointManager.cpp:660-671 | Starts with empty maps and rings and the invariant. |
| `ConsistentHash.EndpointManager.AddActive` | servant/libservant/EndpointManager.cpp:762-774 | An active endpoint enters both maps unless its host is there, and the active and registered proxies, registry flag and weight follow. |
| `ConsistentHash.EndpointManager.UpdateEndpoints` | servant/libservant/EndpointManager.cpp:720-816 | Keeps the invariant (sort map within index map, ring hosts within the last map); both maps hold the first taken endpoint of each host, and active list, registered proxies, registry flags, weights and change flags are those of the two lists. |
| `ConsistentHash.EndpointManager.AddAllActive` | servant/libservant/EndpointManager.cpp:738-774 | The active list fills the empty tables. |
| `ConsistentHash.EndpointManager.DropInactive` | servant/libservant/EndpointManager.cpp:777-805 | The inactive list clears exactly its registry flags, registers its proxies and sets its weights. |
| `ConsistentHash.EndpointManager.CheckConHashChange` | servant/libservant/EndpointManager.cpp:1139-1168 | Brings evicted nodes back, reports a change exactly when the hosts differ or (static) a weight changed, and clears at most the one flag it found. |
| `ConsistentHash.EndpointManager.UpdateConHashProxyWeighted` | servant/libservant/EndpointManager.cpp:1321-1350 | The new ring names exactly the eligible hosts and gives each as many points as its weight, in fours and at least four; their change flags are cleared; the last map is left alone when there is nothing to hash. |
| `EndpointLists.TakenIff` | servant/libservant/EndpointManager.cpp:738-805 | A proxy is taken if and only if some listing of it is not passed over for want of weight. |
| `EndpointLists.FirstOfHostIs` | servant/libservant/EndpointManager.cpp:762-774 | A host is indexed if and only if a taken proxy has it, under the first such proxy. |
| `EndpointLists.WeighIs` | servant/libservant/EndpointManager.cpp:738-805 | A proxy that is taken gets the weight of its last listing, any other keeps weight and flag. |
| `EndpointLists.FlagIs` | servant/libservant/EndpointManager.cpp:738-805 | A proxy listed once has its change flag set, or set already, exactly when it gets a weight it did not have. |
| `ConsistentHash.EndpointManager.Drop` | servant/libservant/EndpointManager.cpp:1095-1102 | A failed probe removes the host from the sort map, from the index only when the registry no longer lists it. |
| `ConsistentHash.EndpointManager.Evict` | servant/libservant/EndpointManager.cpp:1093-1103 | One host fewer in the sort map, the ring rebuilt without it, the invariant kept. |
| `ConsistentHash.EndpointManager.Refresh` | servant/libservant/EndpointManager.cpp:1062-1071 | Before the first probe the ring names the eligible hosts unless it is stale. |
| `ConsistentHash.EndpointManager.ProbeOnce` | servant/libservant/EndpointManager.cpp:1073-1111 | A probe settles on an acceptable indexed endpoint or evicts one; the node is always indexed, so the not-found branch is dead; no acceptable endpoint is evicted. |
| `ConsistentHash.EndpointManager.ProbeLoop` | servant/libservant/EndpointManager.cpp:1073-1115 | The loop ends within as many failed probes as there are indexed endpoints; on any non-empty ring it finds an endpoint if and only if the first node tried is acceptable or some eligible one is, an empty ring falls back; what the last map is afterwards. |
| `ConsistentHash.EndpointManager.ProbeRest` | servant/libservant/EndpointManager.cpp:1073-1115 | After the first failed probe an endpoint is found if and only if an eligible acceptable one exists. |
| `ConsistentHash.EndpointManager.Probe` | servant/libservant/EndpointManager.cpp:1062-1115 | The same from the state before the refresh, exact for current and for stale rings, with the ring, its last map and the change flags afterwards. |
| `ConsistentHash.EndpointManager.GetConHashProxyForNormal` | servant/libservant/EndpointManager.cpp:1472-1533 | An endpoint is found if and only if an acceptable one is indexed and the ring is not stale (out-of-bounds lookups aside). |
| `ConsistentHash.EndpointManager.GetConHashProxyForWeight` | servant/libservant/EndpointManager.cpp:1054-1115 | On a ring that is not stale an endpoint is found if and only if an acceptable one of positive weight exists; on a stale ring if and only if that or the first node tried is acceptable, and an empty one falls back. |
| `ConsistentHash.EndpointManager.GetHashProxy` | servant/libservant/EndpointManager.cpp:917-942 | The weight type decides which ring is searched, the other is untouched, and the answer is exact for it unless it is stale. |
| `StaleRings.FailOnly` | servant/libservant/EndpointManager.cpp:1472-1533 | A failed probe of the only endpoint leaves a stale ring. |
| `StaleRings.EvictedForGood` | servant/libservant/EndpointManager.cpp:1472-1533 | For every hashing: one endpoint whose only probe fails, and the next call falls back although the endpoint is acceptable again. |
| `StaleRings.LoseWeight` | servant/libservant/EndpointManager.cpp:1139-1168 | While the weight type is not static a weight is lost and the search on the other ring clears its flag: the weighted ring is stale. |
| `StaleRings.WeightLossUnseen` | servant/libservant/EndpointManager.cpp:917-942 | For every hashing: the weight type goes from static to another and back, and the weighted search goes on offering an endpoint that lost its weight in between. |
| `StaleRings.BuildExists` | util/src/tc_consistent_hash_new.cpp:147-186 | A hashing as these runs assume it exists: sorted points, four for each virtual node. |
| `RegistryRefresh.QueryEpBase.constructor` | servant/libservant/EndpointManager.cpp:28-249 | The start: which endpoints are known, whether they are valid, which are pushed to the managers, and the interval clamped to five seconds. |
| `RegistryRefresh.QueryEpBase.RefreshReg` | servant/libservant/EndpointManager.cpp:329-460 | refreshReg is the refresh step: pushed lists first, then a timed-out request, then a query when due. |
| `RegistryRefresh.QueryEpBase.AskRegistry` | servant/libservant/EndpointManager.cpp:350-459 | Asking marks the request, skips the query for a valid non-root servant, and handles an exception or a synchronous answer. |
| `RegistryRefresh.QueryEpBase.DoEndpoints` | servant/libservant/EndpointManager.cpp:462-576 | The effect of an answer, including the error code and the empty list. |
| `RegistryRefresh.QueryEpBase.AdoptEndpoints` | servant/libservant/EndpointManager.cpp:491-569 | The effect of the lists of an answer: what is taken over, cached, applied to the proxies and pushed back to the manager itself. |
| `RegistryRefresh.QueryEpBase.TakeOver` | servant/libservant/EndpointManager.cpp:491-564 | A list replaces the old one and is cached if and only if it names other endpoints; weights play no part; the weight type is taken over always. |
| `RegistryRefresh.QueryEpBase.NotifyEndpoints` | servant/libservant/EndpointManager.cpp:818-823 | The proxies get the lists, which are also pushed to every manager of the servant, this one included; interface managers push nothing. |
| `RegistryRefresh.Inserted` | servant/libservant/EndpointManager.cpp:502-529 | Inserting endpoints that are compared by name alone keeps the weight seen first. |
| `RegistryRefresh.QueryEpBase.SetEndPointToCache` | servant/libservant/EndpointManager.cpp:601-658 | One of the lists is written to the cache, except for interface requests. |
| `RegistryRefresh.SameStatic` | servant/libservant/EndpointManager.cpp:491-543 | Static weights are in use exactly when every listed endpoint says so. |
| `RegistryRefresh.QueryEpBase.DoEndpointsExp` | servant/libservant/EndpointManager.cpp:578-599 | The effect of a failure: counting, back-off, and forced validity after the limit. |
| `RegistryRefresh.QueryEpBase.OnUpdateOutter` | servant/libservant/EndpointManager.cpp:687-703 | A pushed pair of lists is applied to the proxies and makes the endpoints valid without a notification. |
| `RegistryRefresh.QueryEpBase.UpdateEndpointsOutter` | servant/libservant/EndpointManager.cpp:705-718 | The pushed lists are kept for the next refresh and the next query is postponed by the refresh interval. |
| `RegistryRefresh.StepInv` | servant/libservant/EndpointManager.cpp:329-599 | Every refresh, answer, late or duplicate callback and push keeps the invariant on query times, notifications, failures and pending times. |
| `RegistryRefresh.RunInv` | servant/libservant/EndpointManager.cpp:329-599 | The invariant holds over every run with a monotone clock. |
| `RegistryRefresh.QueriesAreSpaced` | servant/libservant/EndpointManager.cpp:339-353 | Consecutive queries are at least the failure interval apart, and after many failures at least the long (or the refresh) interval. |
| `RegistryRefresh.NotifiedOnce` | servant/libservant/EndpointManager.cpp:571-598 | doNotify fires at most once: exactly when the endpoints became valid neither at the start nor by a pushed list; while invalid the failures stay within the limit. |
| `RegistryRefresh.NeverReverts` | servant/libservant/EndpointManager.cpp:571-599 | Once valid, a manager stays valid in every run. |
| `RegistryRefresh.NonRootStops` | servant/libservant/EndpointManager.cpp:357-368 | A non-root servant makes no query once valid, in any run. |
| `RegistryRefresh.QueriesGoOn` | servant/libservant/EndpointManager.cpp:339-353 | From every reachable state two refreshes far enough apart make a root servant query again, answered or not. |
| `RegistryTiming.AsksExactlyWhen` | servant/libservant/EndpointManager.cpp:329-368 | A query is made exactly by a refresh that is due, with none open, for a name without endpoints, by the root servant or one without valid endpoints. |
| `RegistryTiming.AskedAfterFailure` | servant/libservant/EndpointManager.cpp:578-599 | After a failure a root servant asks again two seconds later, or thirty once more than three have failed in a row, if and only if that time has come. |
| `RegistryTiming.AskedAfterAnswer` | servant/libservant/EndpointManager.cpp:462-489 | After an answer it asks again an interval later, or ten seconds when no active endpoint was named, and not before. |
| `RegistryTiming.AskedAfterPush` | servant/libservant/EndpointManager.cpp:705-718 | A pushed list puts the next query off by exactly an interval. |
| `RegistryTiming.OpenQuery` | servant/libservant/EndpointManager.cpp:329-353 | An open query is withdrawn by the first refresh more than five seconds later and lets no other be made. |
| `RegistryTiming.FirstQuery` | servant/libservant/EndpointManager.cpp:28-249 | The first refresh asks unless lists were known at the start and not an interval has passed. |
| `RegistryTiming.FourthFailureForces` | servant/libservant/EndpointManager.cpp:578-599 | An answer starts the count of failures anew, the fourth in a row makes the endpoints valid, and failures never touch the lists. |
| `RegistryRefresh.PushedListIsSilent` | servant/libservant/EndpointManager.cpp:687-703 | A concrete run in which the endpoints become valid and doNotify never fires. |
| `RegistryLists.StepInUse` | servant/libservant/EndpointManager.cpp:545-569 | An event that is not a push from outside leaves registry lists and lists in use alone, or brings other endpoints and has the new lists in use. |
| `RegistryLists.AppliedFollows` | servant/libservant/EndpointManager.cpp:545-569 | As long as nobody else pushes, the proxies have the lists the registry gave last and the manager's own push only repeats them, from any start and over any run. |
| `RegistryLists.InUseUnpushed` | servant/libservant/EndpointManager.cpp:545-569 | Without pushes from outside the lists in use are the registry's once it has named other endpoints, and those in use before until then. |
| `RegistryLists.LastPushHolds` | servant/libservant/EndpointManager.cpp:687-718 | Over every run with pushes: after the last one the registry's lists are in use again if and only if it has named other endpoints since or the pushed lists were its own; the active set in use is empty if and only if an empty one was pushed and nothing named since. |
| `RegistryLists.AnswerWeights` | servant/libservant/EndpointManager.cpp:502-569 | After an answer its weights are in use if and only if, list by list, it names other endpoints than before or repeats the weights (`EndpointInfo` compares type, host and port); exact for both lists at once from every state. |
| `RegistryLists.WeightsFrozen` | servant/libservant/EndpointManager.cpp:545-569 | As long as the registry names the same endpoints, no weight it gives reaches the proxies. |
| `RegistryLists.IgnoredWeight` | servant/libservant/EndpointManager.cpp:545-569 | A run in which an endpoint cached with weight 100 is still used and cached with it although the registry answers 1. |
| `RegistryLists.NeverEmptied` | servant/libservant/EndpointManager.cpp:687-703 | The active endpoints of a manager's proxies never run out as long as no list pushed from outside is empty. |
| `RegistryLists.ActiveListStays` | servant/libservant/EndpointManager.cpp:480-486 | Once it has named active endpoints, the registry's list kept by a manager never loses them all. |
| `RegistryLists.SetOfListings` | servant/libservant/EndpointManager.cpp:502-529 | A set of endpoints holds each listed one with the weight of its first listing. |
| `RegistryLists.StartsWithKnown` | servant/libservant/EndpointManager.cpp:162-249 | Which lists are in use, kept and cached at the start, and the weight type of a name that carries endpoints. |
| `RegistryLists.CacheFollows` | servant/libservant/EndpointManager.cpp:545-564 | In every run the cache of the first network thread holds the registry's last lists, never pushed ones, and never loses all active endpoints. |
| `RegistryLists.CacheFromStart` | servant/libservant/EndpointManager.cpp:545-564 | From every start without endpoints in the name and over every run the cache is the registry's last list. |
| `TimeoutQueue.Push` | util/include/util/tc_timeout_queue_new.h:238-262 | Fails exactly on a duplicate id; otherwise the request is in every index, last in sending order unless already sent. |
| `TimeoutQueue.Erase` | util/include/util/tc_timeout_queue_new.h:324-341 | The request leaves all three indexes and they still agree. |
| `TimeoutQueue.MarkSent` | util/include/util/tc_timeout_queue_new.h:190-202 | The oldest unsent request stays held and leaves the sending order. |
| `TimeoutQueue.NextId` | util/include/util/tc_timeout_queue_new.h:228-236 | Generated ids are never zero. |
| `TimeoutQueue.GeneratedIds` | util/include/util/tc_timeout_queue_new.h:228-236 | Every id but zero is generated once before any is again. |
| `TimeoutQueue.InsertTimePlaces` | util/include/util/tc_timeout_queue_new.h:238-262 | A request comes up after all that are due no later and before all that are due later. |
| `TimeoutQueue.NothingExpired` | util/include/util/tc_timeout_queue_new.h:283-300 | When the first deadline has not passed, none has. |
| `RequestLifecycle.MoveKeepsLedger` | servant/libservant/AdapterProxy.cpp:339-578 | Each of the six ways a step can move a message keeps the ledger: held, finished and dropped are disjoint, cover the accepted messages, and the log only grows. |
| `LifecycleRuns.InvokeMoves` | servant/libservant/AdapterProxy.cpp:466-503 | invoke, in either mode and with every send outcome, makes exactly the stated move. |
| `LifecycleRuns.SendMoves` | servant/libservant/AdapterProxy.cpp:541-578 | One turn of the sending loop makes exactly the stated move; which request it takes is FlushTakes. |
| `LifecycleRuns.SerialSendMoves` | servant/libservant/AdapterProxy.cpp:505-539 | The serial sender makes exactly the stated move. |
| `LifecycleRuns.StepLedger` | servant/libservant/AdapterProxy.cpp:339-578 | Every step keeps the ledger, only lengthens the log, and drops a message exactly when sendRequest throws inside invoke. |
| `LifecycleRuns.RunLedger` | servant/libservant/AdapterProxy.cpp:339-578 | Over every run the ledger holds; nothing is dropped if and only if no sendRequest threw inside invoke. |
| `LifecycleRuns.ExactlyOnePlace` | servant/libservant/AdapterProxy.cpp:466-578 | An accepted message is in exactly one of unsent, waiting, finished or dropped, and finished once. |
| `LifecycleRuns.EveryMessageAccounted` | servant/libservant/AdapterProxy.cpp:466-503 | From the start and in both modes: unsent or waiting if and only if not finished, whenever nothing was dropped; nothing dropped if and only if no send threw inside invoke. |
| `LifecycleRuns.IdleIsEmpty` | servant/libservant/AdapterProxy.cpp:339-372 | With nothing in flight and nothing unsent the serial queue is empty, so the push after a direct send cannot meet a duplicate id. |
| `LifecycleRuns.ReplyPaired` | servant/libservant/AdapterProxy.cpp:783-818 | A serial reply completes exactly the request it answers and the asserts of finishInvoke_serial hold. |
| `LifecycleRuns.StepPaired` | servant/libservant/AdapterProxy.cpp:339-397 | Every step keeps the pairing: at most one outstanding answer, owed to _requestMsg, everything else unsent. |
| `LifecycleRuns.RunPaired` | servant/libservant/AdapterProxy.cpp:339-397 | The pairing holds over every run. |
| `LifecycleRuns.SerialReplies` | servant/libservant/AdapterProxy.cpp:783-818 | From the start: at most one outstanding request, which is _requestMsg; every reply completed the request it answered; no assert fired. |
| `LifecycleRuns.ParallelNeverAborts` | servant/libservant/AdapterProxy.cpp:820-871 | No assert fires in parallel mode in any run. |
| `ParallelReplies.RepliesRightIffAlone` | servant/libservant/AdapterProxy.cpp:820-871 | In any state every reply completes exactly the request it answers while that is held and nothing otherwise, if and only if no held message shares its id with another or has id zero. |
| `ParallelReplies.LateReply` | servant/libservant/AdapterProxy.cpp:820-871 | In every run in which no id is used twice: every reply completed the request it answered, and the reply to a finished message leaves the state unchanged however late or often it comes. |
| `LifecycleRuns.ThrowLosesMessage` | util/src/tc_transceiver.cpp:1027-1041 | A call whose send throws is neither held nor finished. |
| `ParallelReplies.ReplyOnce` | servant/libservant/AdapterProxy.cpp:820-871 | A reply completes the message it answers and its second copy changes nothing. |
| `ParallelReplies.RunKeeps` | servant/libservant/AdapterProxy.cpp:399-464 | Over every such run held messages are held under the id they got and all replies match. |
| `ParallelReplies.GeneratedRepliesMatch` | servant/libservant/AdapterProxy.cpp:487-490 | With generated ids only, no assumption on ids is needed for the first 2^32 - 1 events. |
| `ParallelReplies.ReusedIdMispairs` | servant/libservant/AdapterProxy.cpp:407-432 | Two calls with the same id: the reply to the second completes the first. |
| `LifecycleRuns.TimeoutsAreComplete` | servant/libservant/AdapterProxy.cpp:988-1028 | After doTimeout nothing held is past its deadline. |
| `SendOrder.FlushTakes` | servant/libservant/AdapterProxy.cpp:541-578 | A flush transmits exactly the oldest requests, as many as the outcomes allow, each once: they leave the send list, one-way calls are finished, the others are held as sent, and everything else stays as it was. |
| `SendOrder.SerialFlushTakes` | servant/libservant/AdapterProxy.cpp:505-539 | The serial sender transmits the oldest request, holds it as sent, and makes it _requestMsg. |
| `SendOrder.SentInOrder` | servant/libservant/AdapterProxy.cpp:466-578 | Over every run in either mode requests are transmitted in the order in which they were handed in, before all that still wait, and none twice. |
| `Deadlines.TimeoutTakes` | servant/libservant/AdapterProxy.cpp:988-1028 | doTimeout leaves exactly the requests that are not due, each as it was. |
| `Deadlines.TimeoutFinishes` | util/include/util/tc_timeout_queue_new.h:283-300 | Those that are due are finished in the order of their deadlines, each once. |
| `Deadlines.TimeoutConnection` | servant/libservant/AdapterProxy.cpp:988-1028 | The connection is given up if and only if a due request was in flight or shields the node; _requestMsg is forgotten if and only if it was due. |
| `Deadlines.NoneTimesOutEarly` | servant/libservant/AdapterProxy.cpp:988-1028 | Over every run each held request has the kind, deadline and id it was handed in with, and each that timed out did so at or after its deadline. |
| `Connections.StepGivesUp` | servant/libservant/AdapterProxy.cpp:339-578 | Every step gives the connection up exactly when a send fails, a push finds no callback, a timeout calls for it or the peer closes, and counts the pushes dispatched. |
| `Connections.RunConnection` | servant/libservant/AdapterProxy.cpp:339-871 | Over every run the first connection lasts if and only if no event gave it up, and every push with a callback was dispatched. |
| `AdapterConnection.AdapterProxy.constructor` | servant/libservant/AdapterProxy.cpp:49-70 | An adapter starts with nothing held. |
| `AdapterConnection.AdapterProxy.PushOrFinish` | servant/libservant/AdapterProxy.cpp:384-396 | Holds the message or finishes it for a duplicate id. |
| `AdapterConnection.AdapterProxy.SentSerial` | servant/libservant/AdapterProxy.cpp:347-368 | After a direct send the message is _requestMsg, or finished for a duplicate id. |
| `AdapterConnection.AdapterProxy.InvokeConnectionSerial` | servant/libservant/AdapterProxy.cpp:339-397 | The serial branch, statement by statement, is the serial invoke step. |
| `AdapterConnection.AdapterProxy.InvokeConnectionParallel` | servant/libservant/AdapterProxy.cpp:399-464 | The parallel branch is the parallel invoke step. |
| `AdapterConnection.AdapterProxy.Invoke` | servant/libservant/AdapterProxy.cpp:466-503 | invoke with its overload limit and id generation is the invoke step. |
| `AdapterConnection.AdapterProxy.DoInvokeSerial` | servant/libservant/AdapterProxy.cpp:505-539 | doInvoke_serial is its step. |
| `AdapterConnection.AdapterProxy.TrySend` | servant/libservant/AdapterProxy.cpp:541-578 | One turn of the parallel sending loop is its step. |
| `AdapterConnection.AdapterProxy.DoInvokeParallel` | servant/libservant/AdapterProxy.cpp:541-578 | The sending loop is its step for any sequence of outcomes. |
| `AdapterConnection.AdapterProxy.FinishInvokeSerial` | servant/libservant/AdapterProxy.cpp:783-818 | finishInvoke_serial is its step and its four asserts hold. |
| `AdapterConnection.AdapterProxy.FinishInvokeParallel` | servant/libservant/AdapterProxy.cpp:820-871 | finishInvoke_parallel is its step, with pushes dispatched and the connection closed for a push nobody takes. |
| `AdapterConnection.AdapterProxy.ExpireOne` | servant/libservant/AdapterProxy.cpp:988-1028 | One timed-out request: removed, the connection closed when it was _requestMsg, finished. |
| `AdapterConnection.AdapterProxy.DoTimeout` | servant/libservant/AdapterProxy.cpp:988-1028 | The timeout loop is its step. |
| `ObjectQueue.ObjectProxy.DoInvokeException` | servant/libservant/ObjectProxy.cpp:229-321 | The message ends as its kind, callback and adapter say: woken, dispatched, queued, joined, deleted, or left to nobody. |
| `ObjectQueue.ObjectProxy.Invoke` | servant/libservant/ObjectProxy.cpp:112-159 | invoke queues (with the adapter chosen, if any), disposes of or hands on the message as the step says. |
| `ObjectQueue.ObjectProxy.PrepareConnection` | servant/libservant/ObjectProxy.cpp:161-197 | The loop, with hash re-selection overwriting its adapter and early returns, is its step. |
| `ObjectQueue.ObjectProxy.DoTimeout` | servant/libservant/ObjectProxy.cpp:323-348 | Every adapter times out, then late queued messages are disposed of in deadline order until none is late. |
| `ObjectTimeouts.ExpireTakes` | servant/libservant/ObjectProxy.cpp:339-347 | Exactly the messages that are due leave the queue and are disposed of in the order of their deadlines; the others stay in order. |
| `ObjectTimeouts.NotDueStays` | servant/libservant/ObjectProxy.cpp:323-348 | A queued message that is not due stays. |
| `ObjectRuns.PrepareKeeps` | servant/libservant/ObjectProxy.cpp:161-197 | prepareConnection moves each message from one place to one place, whatever selection and sending do. |
| `ObjectRuns.StepKeeps` | servant/libservant/ObjectProxy.cpp:112-348 | Every step of object or adapter keeps: each given message has exactly one place. |
| `ObjectRuns.RunKeeps` | servant/libservant/ObjectProxy.cpp:112-348 | The same over every run. |
| `ObjectRuns.ExactlyOneHolder` | servant/libservant/ObjectProxy.cpp:112-348 | A given message is in the queue, with exactly one adapter, or disposed of once, and only one of these. |
| `ObjectRuns.EndedAtMostOnce` | servant/libservant/ObjectProxy.cpp:229-348 | No two adapters finish a message, none finishes it twice, and what an adapter finished is neither queued nor disposed of. |
| `ObjectTimeouts.DueMessagesEnd` | servant/libservant/ObjectProxy.cpp:323-348 | In every run, once doTimeout runs past every deadline of a given message, the message has been disposed of once, or one adapter has finished it once or lost it to a throwing send, and only one of these. |
| `ObjectCauses.AcceptGoes` | servant/libservant/ObjectProxy.cpp:112-159 | A new message goes to the adapter selected when that is connected, is disposed of when none was found, and otherwise waits behind the others. |
| `ObjectCauses.EverythingCaused` | servant/libservant/ObjectProxy.cpp:112-348 | Over every run: each queued message waits for a selection or connection until the time set for it; each disposed of was refused, found no adapter when selected anew, or waited too long; adapters hold what was given, and what timed out there had expired. |
| `Handover.DrainsIff` | servant/libservant/ObjectProxy.cpp:161-197 | prepareConnection empties the queue if and only if its loop ends with none of the messages but perhaps the last: no selection fails and no send throws. |
| `Handover.PrepareLeaves` | servant/libservant/ObjectProxy.cpp:161-197 | What it leaves is exactly the queue behind the message the loop ends with. |
| `Handover.StopsIffFails` | servant/libservant/ObjectProxy.cpp:177-187 | As long as no send throws, that is the first message whose selection fails. |
| `HandoverRuns.FailedSelectionStrands` | servant/libservant/ObjectProxy.cpp:177-187 | A run to a state in which a failed selection leaves the next message waiting. |
| `HandoverRuns.ThrowStrands` | servant/libservant/ObjectProxy.cpp:161-197 | A run to a state in which a throwing send leaves the next message waiting. |
| `Handover.ReachesIff` | servant/libservant/ObjectProxy.cpp:161-197 | A message reaches an adapter if and only if the loop ends with none before it and that adapter was selected last at or before it, or connected when none was; throwing sends included. |
| `HandoverRuns.BoundMessageGoesElsewhere` | servant/libservant/ObjectProxy.cpp:189-195 | A run to a state in which a message bound to the first adapter is sent to the second. |
| `DisposedCalls.RunFates` | servant/libservant/ObjectProxy.cpp:112-348 | Over every run a queued call is bound exactly when an adapter was selected for it, and every end is the one doInvokeException makes for its call. |
| `DisposedCalls.DisposedFates` | servant/libservant/ObjectProxy.cpp:229-321 | In every run, of the disposed: exactly synchronous callers are woken, each kind of callback is dispatched, joined or queued, exactly asynchronous calls without callback are left to nobody, and asynchronous calls are deleted exactly when the coroutine waits for no parallel call, or the callback belongs to the callback threads and no adapter was selected. |
| `DisposedCalls.RefusedUntold` | servant/libservant/ObjectProxy.cpp:112-159 | Two runs: a refused call whose callback is deleted uncalled, and one without callback that is left to nobody. |
| `CircuitBreaker.AdapterHealth.constructor` | servant/libservant/AdapterProxy.cpp:49-66 | A node starts active with all counters zero. |
| `CircuitBreaker.AdapterHealth.ResetRetryTime` | servant/libservant/AdapterProxy.cpp:696-703 | The next retry is now, or one interval away. |
| `CircuitBreaker.AdapterHealth.SetInactive` | servant/libservant/AdapterProxy.cpp:757-781 | Shielding sets the status and the next retry time. |
| `CircuitBreaker.AdapterHealth.FinishInvoke` | servant/libservant/AdapterProxy.cpp:592-694 | finishInvoke(bool) is the counting, streak and ratio step. |
| `CircuitBreaker.AdapterHealth.CheckRatio` | servant/libservant/AdapterProxy.cpp:667-693 | The interval check on the failure ratio. |
| `CircuitBreaker.AdapterHealth.CheckActive` | servant/libservant/AdapterProxy.cpp:705-755 | What checkActive changes and exactly when it answers true. |
| `CircuitBreaker.AdapterHealth.AddConnExc` | servant/libservant/AdapterProxy.cpp:1226-1252 | Connection exceptions: counted until the limit shields the node, cleared by a success. |
| `CircuitBreaker.StepMeaning` | servant/libservant/AdapterProxy.cpp:592-694 | Every event keeps the meaning of the failure streak. |
| `CircuitBreaker.StepSpan` | servant/libservant/AdapterProxy.cpp:592-694 | Every event keeps the meaning of total, timeouts and time of the next judgement. |
| `CircuitBreaker.SpanIsRecent` | servant/libservant/AdapterProxy.cpp:667-693 | The calls the ratio is judged on are all the calls that count since some moment. |
| `CircuitBreaker.CountersMeanHistory` | servant/libservant/AdapterProxy.cpp:592-694 | After every history the streak is the number of failures counted while active since the last success, its deadline belongs to its first failure, and total and timeouts count the calls, and the failed calls, since counting last started over. |
| `CircuitBreaker.ShieldedExactlyWhen` | servant/libservant/AdapterProxy.cpp:592-694 | A finished call shields an active node if and only if it failed and the streak rule or the due ratio rule trips, both read off the history. |
| `CircuitBreaker.OverRatioMeans` | servant/libservant/AdapterProxy.cpp:667-693 | The ratio is exceeded exactly when at least that part of the calls timed out, equality included. |
| `ShieldHistory.ShieldedIff` | servant/libservant/AdapterProxy.cpp:592-781 | After every history a node is shielded if and only if the streak or ratio rule, the limit of connection exceptions, another servant or a throwing connect shielded it and no call has succeeded and no connection come up since. |
| `ShieldHistory.LimitMeans` | servant/libservant/AdapterProxy.cpp:1226-1252 | The flag of the connection-exception limit, read off the history. |
| `ShieldHistory.RetryTimeIs` | servant/libservant/AdapterProxy.cpp:696-765 | The retry time, read off the history: what put it off last, and by how much. |
| `ShieldHistory.RefusedIff` | servant/libservant/AdapterProxy.cpp:705-724 | checkActive refuses at once exactly when it is not forced, the node is shielded and that time has not come. |
| `CircuitBreaker.RetryFloor` | servant/libservant/AdapterProxy.cpp:696-765 | After an unforced attempt the retry time stays an interval ahead of it until resetRetryTime(false). |
| `CircuitBreaker.ProbesAreSpaced` | servant/libservant/AdapterProxy.cpp:696-755 | Two unforced attempts on a shielded node are at least tryTimeInterval apart whatever happens between them. |
| `FutureWatchers.StepInv` | servant/promise/promise.h:374-428 | Every step of every thread keeps the invariant on outcome, winner, watcher places and recorded times. |
| `FutureWatchers.RunInv` | servant/promise/promise.h:374-428 | The invariant holds in every state of every run. |
| `FutureWatchers.OutcomeIsFinal` | servant/promise/promise.h:374-394 | Once set, the outcome never changes. |
| `FutureSettlement.HoldsFirst` | servant/promise/promise.h:293-306 | In every run a future holds what its first settler set, value or exception, from that step on and nothing before. |
| `FutureSettlement.LaterThrow` | servant/promise/promise.h:374-394 | Whoever sets it later gets the exception. |
| `FutureSettlement.CalledInOrder` | servant/promise/promise.h:412-427 | In every run pushed watchers are called in the order in which they were pushed. |
| `FutureWatchers.AtMostOnceAfterSettlement` | servant/promise/promise.h:396-426 | Every watcher runs at most once and only after settlement. |
| `FutureWatchers.RanOnceUnlessMissed` | servant/promise/promise.h:396-426 | At rest a watcher has run exactly once, or never, and never if and only if mark and swap both fell between its done check and its push. |
| `FutureWatchers.WatcherCanBeMissed` | servant/promise/promise.h:396-426 | Such a run exists. |
| `WhenAll.StepInv` | servant/promise/when_all.h:134-154 | Every step keeps: the counter counts the callbacks still to decrement, at most one callback is setting, written slots hold their future. |
| `WhenAll.RunInv` | servant/promise/when_all.h:134-154 | The invariant holds in every state of every run. |
| `WhenAll.JointPromise` | servant/promise/when_all.h:173-191 | The joint promise is never set twice, is set only when all inputs settled, with slot k holding future k, and is set once all callbacks have finished. |
| `WhenAll.JointIsFinal` | servant/promise/when_all.h:134-154 | Once set, the joint value stays. |
| `WhenAllWatchers.RunInv` | servant/promise/when_all.h:134-191 | Over every interleaving of all futures and callbacks: a callback has begun only if its future called it, and a future is settled for the callbacks exactly when it is settled. |
| `WhenAllWatchers.Projected` | servant/promise/when_all.h:173-191 | What each future goes through inside such an interleaving is a run of that future by itself. |
| `WhenAllWatchers.JointUnlessMissed` | servant/promise/when_all.h:173-191 | Over every interleaving of all futures and callbacks: at rest the joint promise is set if and only if no input's callback was missed. |
| `SequenceIds.SeqManager.constructor` | servant/libservant/ServantProxy.cpp:37-58 | All ids are free, in order. |
| `SequenceIds.SeqManager.Get` | servant/libservant/ServantProxy.cpp:69-90 | Hands out the head of the free queue, a free id, and marks it held. |
| `SequenceIds.SeqManager.Del` | servant/libservant/ServantProxy.cpp:92-110 | A held id goes to the tail of the free queue. |
| `SequenceIds.ChainIsQueue` | servant/libservant/ServantProxy.cpp:37-110 | Walking the links from the head visits exactly the free queue, each slot once, and stops at the tail however many steps are allowed. |
| `SequenceIds.FreePlusHeld` | servant/libservant/ServantProxy.cpp:37-110 | Free plus held ids are all ids. |
| `SequenceIds.FirstFreedFirstServed` | servant/libservant/ServantProxy.cpp:69-110 | Over every legal sequence the ids handed out are the initial ones followed by the freed ones in order of freeing; the free queue never repeats an id. |
| `Framing.NetWorkBuffer.ParseStream` | servant/servant/AppProtocol.h:83-125 | A full packet is copied out and removed; otherwise the buffer is untouched. |
| `Framing.NetWorkBuffer.DoProtocolAnalysis` | util/src/tc_transceiver.cpp:815-858 | The parse loop drains the buffer completely; a packet that consumes nothing or an error closes the connection. |
| `Framing.NetWorkBuffer.Receive` | util/src/tc_transceiver.cpp:969-1022 | Over a whole connection, frames, remainder and error are those of the bytes received in one piece. |
| `Framing.ParseStable` | servant/servant/AppProtocol.h:83-125 | A full packet or an error stays what it is when more bytes arrive. |
| `FramingVerdicts.ErrMeans` | servant/servant/AppProtocol.h:83-125 | Once the header is there the parser fails if and only if no frame begins with it. |
| `FramingVerdicts.FullMeans` | servant/servant/AppProtocol.h:83-125 | A frame comes out if and only if the buffer starts with it. |
| `FramingVerdicts.LessMeans` | servant/servant/AppProtocol.h:83-125 | It waits if and only if the header, or some frame beginning with it, is not complete. |
| `Framing.DrainSplit` | servant/servant/AppProtocol.h:83-125 | Draining early and carrying the remainder over equals draining everything at once. |
| `Framing.SplitIndependent` | servant/servant/AppProtocol.h:83-125 | For every stream and every split the result is that of the unsplit stream. |
| `Framing.FramingRoundTrip` | servant/servant/AppProtocol.h:83-125 | Any well-formed frames, split in any way, come back in order with nothing left over. |
| `Framing.DeliveredExactly` | servant/servant/AppProtocol.h:83-125 | A connection without error has delivered these frames and holds this rest if and only if they are a cutting of the bytes into well-formed frames and an incomplete one. |
| `FramingVerdicts.RejectedExactly` | servant/servant/AppProtocol.h:83-125 | A connection has delivered these frames and broken if and only if its bytes begin with them and no frame can follow. |
| `FramingVerdicts.EmptyFrameCloses` | util/src/tc_transceiver.cpp:815-858 | A length of zero that passes the minimum check delivers an empty frame and closes the connection. |
| `Framing.NetworkOrderReads` | servant/servant/AppProtocol.h:39-50 | The four bytes of htonl read back as the length modulo 2^32. |
| `FramingVerdicts.NetworkOrderBytes` | servant/servant/AppProtocol.h:39-50 | The first of the four bytes counts most. |
| `FramingVerdicts.OrdersMirror` | servant/servant/AppProtocol.h:83-125 | Each byte order reads what the other reads backwards. |
| `FramingVerdicts.HeaderReads` | servant/servant/AppProtocol.h:83-125 | The length is read from the field bytes alone, in the order of the format. |
| `Framing.TarsRequest` | servant/libservant/AppProtocol.cpp:48-66 | Reserving four bytes, writing the body and patching the length gives prefix plus body. |
| `Framing.WrittenRequestIsFrame` | servant/libservant/AppProtocol.cpp:48-66 | The receiver takes a written request as one frame if and only if it is within the size limit. |
| `Framing.RequestsRoundTrip` | servant/libservant/AppProtocol.cpp:48-66 | Any run of requests within the limit survives any fragmentation. |
| `Statistics.TotalBump` | servant/libservant/AdapterProxy.cpp:1179-1195 | Merging a body into a map adds exactly that body to the totals of any set of heads that holds its head. |
| `Statistics.TotalMerged` | servant/libservant/StatReport.cpp:623-667 | Merging two maps adds their totals, for every figure and every set of heads. |
| `Statistics.Sample` | servant/libservant/AdapterProxy.cpp:1138-1166 | Every recorded call counts exactly once, as success, timeout or exception. |
| `Statistics.AdapterProxy.Stat` | servant/libservant/AdapterProxy.cpp:1138-1177 | A call is merged into its function's entry; pushed messages are not recorded. |
| `Statistics.AdapterProxy.MergeOne` | servant/libservant/AdapterProxy.cpp:1203-1219 | One entry is merged under the adapter's head, or passed over when it has no call. |
| `Statistics.AdapterProxy.MergeStat` | servant/libservant/AdapterProxy.cpp:1197-1224 | The adapter's entries with at least one call are merged under its head and the adapter is emptied, in whatever order they are visited. |
| `StatReporting.StatReport.AddMicMsg` | servant/libservant/StatReport.cpp:623-667 | The result is the merge of the two maps, in whatever order the entries are visited. |
| `StatReporting.StatReport.PopAll` | servant/libservant/StatReport.cpp:689-701 | All waiting maps are pooled. |
| `StatReporting.StatReport.ReportMicMsg` | servant/libservant/StatReport.cpp:401-464 | The packets sent are the packets of the map, none without a proxy. |
| `StatReporting.StatReport.SendBatches` | servant/libservant/StatReport.cpp:416-453 | The loop with its running length cuts and sends exactly those packets. |
| `StatReporting.CutPartitions` | servant/libservant/StatReport.cpp:416-453 | Every head is in exactly one packet, in order. |
| `StatReporting.ItemLenCounts` | servant/libservant/StatReport.cpp:416-431 | The estimated size of an entry counts every character of six names and nothing else. |
| `StatReporting.CutFits` | servant/libservant/StatReport.cpp:416-453 | A packet with more than one entry is within _maxReportSize. |
| `StatReporting.CutIsGreedy` | servant/libservant/StatReport.cpp:416-453 | Each next packet starts with an entry that no longer fitted; an empty packet is sent if and only if the very first entry alone is too big. |
| `StatReporting.EmptyPacketSent` | servant/libservant/StatReport.cpp:416-431 | A function name longer than the limit makes an empty packet go out first. |
| `StatReporting.PacketsConserve` | servant/libservant/StatReport.cpp:401-464 | For every figure and every set of heads the packets add up to the map. |
| `StatPipeline.CollectConserves` | servant/libservant/CommunicatorEpoll.cpp:463-490 | Collecting all adapters loses nothing. |
| `StatPipeline.PoolConserves` | servant/libservant/StatReport.cpp:689-701 | Pooling the queue loses nothing. |
| `StatPipeline.StepConserves` | servant/libservant/CommunicatorEpoll.cpp:418-490 | Every step keeps: recorded = waiting in adapters + queued + on the wire + dropped. |
| `StatPipeline.RunConserves` | servant/libservant/CommunicatorEpoll.cpp:418-490 | The same over every run, for every figure and every set of heads. |
| `StatPipeline.NothingDropped` | servant/libservant/CommunicatorEpoll.cpp:418-428 | Figures are dropped if and only if a full queue or a missing proxy met some. |
| `StatPipeline.EverythingReported` | servant/libservant/StatReport.cpp:669-715 | After a run without drops, one collection and one report put on the wire exactly what was recorded. |
| `StatPipeline.RunRecords` | servant/libservant/AdapterProxy.cpp:1138-1177 | Over every run the recorded figures are what the calls come to, case by case: successes with their times, timeouts, exceptions, and nothing for pushes. |
| `StatPipeline.CallsReported` | servant/libservant/StatReport.cpp:669-715 | So after a run without drops, one collection and one report put on the wire what the calls come to. |

## Left out

- Sockets, epoll, TLS, coroutines, threads and condition variables: only the steps they lead to are modelled.
- TARS, TUP, JSON, HTTP, HTTP/2 and gRPC encodings, and `ProxyProtocol::streamResponse`: they rest on stream classes outside this model.
- Shared-memory containers (servant/jmem), Application, configuration, logging, admin commands and AuthLogic: only easy claims.
- `getNextValidProxy`, `getHashProxyForNormal`, `getWeightedForNormal` and `updateProxyWeighted`: selection by plain position over the tables proved here.
- `FutureWatchers` and `WhenAll` are state machines over values rather than classes, since their results are about interleavings; a watcher that throws is swallowed by the source and is not told apart.
- Re-entrant callbacks: a connect that succeeds at once inside `checkActive`, or a callback that calls back into the proxy, happens as a separate later step.
- The other managers of a servant: one manager is modelled, and what the others push to it arrives as events.
- Keep-alive calls and `doReconnect`: timers around operations modelled here.
- Ring hashing (MD5, Ketama): a ring is any sorted list of points with four for each virtual node, wherever the hash puts them.
- The narrowing of a 64-bit hash code to 32 bits before the ring lookup: codes are natural numbers.
- Vector capacity (`reserve`) and log output of the table builders.
- Counters of the circuit breaker and of the statistics are unbounded integers, and the failure ratio is a real number: wrap-around and rounding are not modelled.
- An exception thrown by the statistics proxy while sending: the figures of that round are lost in the source and this path is not modelled.
- Several network threads feeding one statistics thread: one network thread is modelled.
- Length types of eight bytes, for which `net2host` returns 0, and signed length types in `parseStream`.
- Empty request buffers and the early closing of idle connections.
- `ObjectProxy` keeps its adapters as values of the request lifecycle rather than as objects, so aliasing between adapters is not captured.
- What the push callback does with a server push: the model counts the dispatch and touches no request.
- Statistics.AdapterProxy.Stat: does not state smallest and largest response times and interval histograms, because the merge steps of the source treat them differently from sums.
- StatReporting.StatReport.AddMicMsg: leaves the same three figures out, for the same reason.
- Framing.NetWorkBuffer.DoProtocolAnalysis: leaves out PACKET_FULL_CLOSE, which `parseStream` never returns, and the authentication exchange before the first packet.
