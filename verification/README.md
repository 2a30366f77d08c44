# dubbo-admin: verified models of the admin server's stateful core

Dafny models of ten parts of dubbo-admin, each with proofs about every input, every run or every
reachable state. `dafny verify dfyconfig.toml` checks the whole project.

| part | modules | what is proved |
|---|---|---|
| component start-up order | `DependencyGraph`, `Ordering` | Kahn's loop succeeds exactly on complete, acyclic graphs; its order is the least one and does not depend on how components are listed; a stalled loop yields a simple cycle |
| database lease | `LeaseProtocol`, `LeaseProgress`, `LeaderElection` | version fencing and exclusion over any interleaving of any number of replicas with lost replies and late statements; exactly when two leader flags overlap in a run; a leader that renews in time keeps the lease whatever the others do; what each wake-up of the election loop does |
| event bus | `EventBus`, `EventBusSafety`, `EventBusLedger`, `EventBusCoverage`, `EventBusProgress`, `EventBusCalls` | event conservation, drain on shutdown, one offer per send, drainer coverage, unique names, and the exact condition for a channel panic, over any interleaving of calls; what each call gets done, to the whole state, when nothing holds it up |
| informer | `Informer`, `Resources` | a batch leaves every key as the last delta about it says; replaying the emitted events rebuilds the store; events are faithful exactly when the deltas are |
| instance lifecycle | `InstanceLifecycle`, `InstanceReports` | over every sequence of registry and runtime reports: exactly when an instance is stored while, and only while, somebody reports it |
| counters | `Counters`, `CounterManager`, `CounterComponent`, `CounterRuns` | over every run of metadata deltas, instance reports and leadership terms, on this replica or elsewhere: each count equals a recount in every state exactly when every step meets a condition that can be checked before it |
| login transactions | `OAuthStore`, `OAuthService` | the map with its expiry queue refines a timed map; exactly which requests reach Authenticate, each transaction at most once, in time, with its own secrets; what every other request is answered |
| rule history | `RuleHistory` | exactly when a call succeeds, what it then records, and that the live rule follows the record; the live rule is always a recorded one, with the exact condition before each call under creates over live rules and under retention; version numbers are never reused; what rollback can restore |
| related types | `RelatedTypes` | the answer is exactly the set of declared types reachable from a method's signature, sorted, each as first declared |
| condition expressions | `ConditionExpression`, `ConditionReading`, `ConditionRoundTrip`, `ConditionDestinations`, `Text` | every text is a list of terms and is parsed into exactly what they say; the exact set of service arguments that survive being written and parsed back, and what several destinations become |

How the models are built:

- Code that updates fields or loops is a class or a method, specified by a function of the old state;
  the theorems are lemmas about those functions and about whole runs.
- The lease row and the event bus are concurrent protocols. They are state machines whose steps are the
  atomic statements of the source; a run is any sequence of enabled steps. `LeaderElection` then proves
  that the Go methods perform exactly the protocol's client steps.
- I/O results are inputs: SQL replies, clock readings, random draws, store failures, and which of the
  ordered effects of a call were applied. Clocks are integers.
- Keys and names are `string`; Go's `int64` and `int32` values are unbounded integers.

Where the code and its documentation, or an expected property, disagree, the code is followed:

- `pkg/core/leader/leader.go:43` says only one replica holds the lease at any time. The row has one
  holder, but two `isLeader` flags can be set at once: `FlagsOverlapIff` shows that this happens in a run
  exactly when a read-back is answered to one replica while the other leads. `FlagsCanOverlap` is a run
  after an expired lease, `DelayedReadBackOverlaps` one in which the other's lease is still valid;
  `Exclusion` is what does hold.
- `Unsubscribe` closes a channel without the test that the shutdown sweep makes
  (`pkg/core/events/component.go:146-148` and `:210`). `ChannelSafety` shows that this is the only way
  to a channel panic, `DoubleCloseIsReachable` that it can happen.
- The initial load of the counters skips empty protocols and releases and counts an empty mesh under
  another key than events do. `LoadAgreesIff` gives the exact condition, `UnnamedProtocolMiscounts` an
  instance.
- Discovery, the engine and the counters are elected apart (`pkg/core/discovery/component.go:140`,
  `pkg/core/engine/component.go:133`, `pkg/console/counter/component.go:101`) over one shared store, and
  events stay inside a replica. So a leader of the counters misses what another replica stores, and its
  counts stay behind: `CountsAreRecountsIff` gives the exact condition, `ElsewhereMiscounts` a run.
- Whether a registry knows an instance is read off its register time, which is empty when no timestamp
  could be parsed, and whether the platform does off fields a report may leave empty. So an instance can
  be removed while it is still reported, and stay when it is not: `ReportedStaysStoredIff` and
  `StoredIffReportedIff` give the exact conditions, `RegisteredIsForgotten`, `DeployedIsForgotten` and
  `MovedPodStrands` instances.
- An instance that leaves the registry is blanked before the store and the event see it
  (`pkg/core/discovery/subscriber/rpc_instance.go:150-172`), and merges are not announced at all, so the
  counts by protocol and release drift: `LifecycleKeepsIff` and `CountsAreRecountsIff` give the exact
  condition, `DeletionLeaks` the size of the error, `OrdinaryDeletionMiscounts` an instance.
- Creating over a live rule without history, and retention after failed writes, can leave the live
  rule unrecorded: `CreateIsSafeIff`, `UpdateIsSafeIff`, `DeleteIsSafeIff` and `RollbackIsSafeIff` say
  before the call when it cannot, `CreateKeepsRecordIff` and `ChangeKeepsRecordIff` for each outcome;
  `CreateOverLiveLosesIt` and `RetentionLosesLive` are instances.
- Several destinations, non-zero weights, and fields that form `=>` or a false `!=` do not survive an
  expression round trip: `RoundTripIff` is the exact domain, `DestinationsMerge` says what several
  destinations become.

## Model

| member | source | states |
|---|---|---|
| `DependencyGraph.DependencyGraph.constructor` | pkg/core/runtime/dependency_graph.go:37-61 | the component map and the reverse adjacency list hold exactly the input's components and edges; with distinct types the two are consistent |
| `DependencyGraph.DependencyGraph.Validate` | pkg/core/runtime/dependency_graph.go:120-137 | nothing is reported exactly when every dependency is declared; a report names a real, undeclared dependency |
| `DependencyGraph.CycleSearch.Dfs` | pkg/core/runtime/dependency_graph.go:145-171 | the search ends on cyclic graphs; found means the path is a simple cycle; not found leaves the finished nodes in dependency order and restores path and stack |
| `DependencyGraph.CycleSearch.CloseCycle` | pkg/core/runtime/dependency_graph.go:157-165 | cutting the path back to the revisited node leaves a simple cycle that starts there |
| `DependencyGraph.DependencyGraph.FindCycle` | pkg/core/runtime/dependency_graph.go:140-182 | sound and complete: a non-empty answer is a simple cycle, an empty one means a start-up order exists |
| `DependencyGraph.DependencyGraph.EmitNext` | pkg/core/runtime/dependency_graph.go:88-107 | one round keeps in-degrees equal to pending dependencies, the queue equal to the ready components, and the output greedy |
| `DependencyGraph.DependencyGraph.TopologicalSort` | pkg/core/runtime/dependency_graph.go:65-117 | succeeds exactly on complete, acyclic graphs; then returns the lexicographically least dependency-respecting order; missing dependency and cycle errors carry real witnesses |
| `DependencyGraph.SortComponents` | pkg/core/bootstrap/bootstrap.go:150-172 | the sorted components are a permutation of the input in the least order, or the right error |
| `DependencyGraph.GreedyIsLeast` | pkg/core/runtime/dependency_graph.go:88-108 | always taking the alphabetically first ready component gives the least of all valid orders |
| `DependencyGraph.LeastOrderUnique` | pkg/core/runtime/dependency_graph.go:90-91 | there is only one least order |
| `DependencyGraph.OrderIgnoresInputOrder` | pkg/core/runtime/dependency_graph.go:65-117 | two listings of the same components have the same order |
| `DependencyGraph.StuckHasNoOrder` | pkg/core/runtime/dependency_graph.go:110-114 | a set of components that all wait for each other rules out every order |
| `DependencyGraph.StalledIsStuck` | pkg/core/runtime/dependency_graph.go:110-114 | when the queue runs empty early, the components left form such a set |
| `DependencyGraph.OrderImpliesAcyclic` | pkg/core/runtime/dependency_graph.go:110-116 | a valid order excludes every closed walk, so success and a cycle never coexist |
| `DependencyGraph.DependentsCount` | pkg/core/runtime/dependency_graph.go:51-58 | with distinct types, edges and in-degrees agree even when a dependency is listed twice |
| `LeaseProtocol.StepKeepsInvariant` | pkg/core/leader/leader.go:109-217 | every atomic step of every replica keeps the log well formed, the row equal to its last write, and each replica's knowledge consistent with the log |
| `LeaseProtocol.RunKeepsInvariant` | pkg/core/leader/leader.go:109-217 | that invariant in every reachable state |
| `LeaseProtocol.VersionFencing` | pkg/core/leader/leader.go:109-217 | over every run, late statements included: versions never shrink and grow with every acquire or renew, a version belongs to one holder, the row is created once, and the holder only changes after expiry |
| `LeaseProtocol.RenewAcceptedIff` | pkg/core/leader/leader.go:170-201 | the row accepts a renewal exactly when its last write is this replica's own at the version it believes in |
| `LeaseProtocol.ForeignVersionNeverRenews` | pkg/core/leader/leader.go:130-145 | a version read back from another holder's write never renews |
| `LeaseProtocol.FencedWritesNothing` | pkg/core/leader/leader.go:170-217 | after a takeover the old leader, with no update or insert still out, writes nothing until it acquires again |
| `LeaseProtocol.Exclusion` | pkg/core/leader/leader.go:109-217 | at most one replica has its flag set within the expiry it last wrote, and the row names it with that expiry |
| `LeaseProtocol.OverlapIsStale` | pkg/core/leader/leader.go:220-222 | of two set flags one is past its own expiry |
| `LeaseProtocol.AcquireAloneSucceedsIff` | pkg/core/leader/leader.go:109-166 | an undisturbed acquire succeeds exactly when there is no row or it has expired, and otherwise leaves the row alone |
| `LeaseProtocol.OverlapStepIff` | pkg/core/leader/leader.go:109-217 | in every state the invariant allows, the steps that bring two flags together are exactly the read-backs answered to one replica while the other leads; an insert never does |
| `LeaseProtocol.FlagsOverlapIff` | pkg/core/leader/leader.go:109-222 | over every run: two flags are set at once in some state exactly when some read-back is answered to one replica while the other leads |
| `LeaseProtocol.TakeoverOverlapsIff` | pkg/core/leader/leader.go:109-166 | exactly when an undisturbed acquire leaves two flags set: the other still leads and the row has expired |
| `LeaseProtocol.FlagsCanOverlap` | pkg/core/leader/leader.go:220-222 | a run in which both flags are set |
| `LeaseProtocol.DelayedReadBackOverlaps` | pkg/core/leader/leader.go:128-145 | a run in which both flags are set although the lease of one is still valid |
| `LeaseProtocol.AcquireAloneIsRun` | pkg/core/leader/leader.go:109-166 | the undisturbed acquire is a run of the protocol |
| `LeaseProgress.RenewalKeepsLease` | pkg/core/leader/leader.go:170-195 | an answered renewal of the row's own version keeps the flag, follows the row to its next version and extends the lease from the time the call began |
| `LeaseProgress.LeaderKeepsLease` | pkg/core/leader/leader.go:170-201 | over every continuation in which the clock does not pass the expiry and the leader's renewals are answered: it keeps flag, row and version, whatever other replicas and their late statements do |
| `LeaseProgress.AcquireAloneTakes` | pkg/core/leader/leader.go:109-166 | an undisturbed acquire of a free or expired row leaves it to this replica from now for the lease duration, at the next version |
| `LeaseProgress.ReleaseHandsOver` | pkg/core/leader/leader.go:205-217 | an answered release clears the flag first and leaves a row the next acquire of any replica takes at once |
| `LeaseProgress.FlagFollowsAnswers` | pkg/core/leader/leader.go:109-217 | in every state the invariant allows: the flag rises exactly on a granting answer and falls exactly on a missing or refusing one or on a release |
| `LeaseProgress.CallsEnd` | pkg/core/leader/leader.go:109-217 | which statement follows which, and that each call ends with its last one; a renew without the flag sends nothing |
| `LeaderElection.LeaderElection.TryAcquire` | pkg/core/leader/leader.go:109-166 | the method's effect on flag and version is the protocol's update, read-back and insert steps for the same replies |
| `LeaderElection.LeaderElection.Renew` | pkg/core/leader/leader.go:170-201 | likewise for the renew step |
| `LeaderElection.LeaderElection.Release` | pkg/core/leader/leader.go:205-217 | likewise for the release step |
| `LeaderElection.RunLeaderElection` | pkg/core/leader/leader.go:227-276 | object, callbacks and return are those of the wake-ups one after the other; callbacks alternate from start; on return their counts are equal and every term's channel was made once and closed once |
| `LeaderElection.WakeupDoes` | pkg/core/leader/leader.go:242-274 | exactly when a wake-up starts, keeps or ends a term, the callback it makes and the version it leaves |
| `LeaderElection.RenewalsKeepTerm` | pkg/core/leader/leader.go:262-273 | any number of extended renewals keeps the term, one version on each, without a callback |
| `LeaderElection.Terms.OnStartLeading` | pkg/core/discovery/component.go:164-173 | a new term makes one new channel |
| `LeaderElection.Terms.OnStopLeading` | pkg/core/discovery/component.go:174-180 | the end of a term closes that term's channel, which was still open |
| `LeaderElection.AlternatingCounts` | pkg/core/leader/leader.go:227-276 | alternation from start fixes the number of starts and stops |
| `EventBus.StepKeepsInvariant` | pkg/core/events/component.go:75-240 | every step of every call and drainer keeps subscribers, directory, lock and wait group consistent |
| `EventBus.RunKeepsInvariant` | pkg/core/events/component.go:75-240 | that invariant in every reachable state |
| `EventBusSafety.EventConservation` | pkg/core/events/component.go:166-202 | processed, in-flight and queued events are the taken ones in order; the queue stays within the buffer; an event is dropped only while a whole buffer of events is waiting; at most one drainer |
| `EventBusLedger.SendOffersOnce` | pkg/core/events/component.go:166-202 | a finished Send offered its event exactly once to each subscriber listed at its start and to nobody else |
| `EventBusSafety.DrainOnShutdown` | pkg/core/events/component.go:204-240 | after WaitForDone returned, every subscriber with a drainer has processed all it took |
| `EventBusSafety.UnsubscribeDrains` | pkg/core/events/component.go:130-164 | an Unsubscribe that waited returns after everything taken was processed |
| `EventBusCoverage.DrainerStarted` | pkg/core/events/component.go:75-128 | while started and not stopped, every listed asynchronous subscriber has exactly one running drainer once no call is still launching it |
| `EventBusSafety.PanicsIff` | pkg/core/events/component.go:130-219 | a step sends on a closed channel or closes one twice exactly when it is an Unsubscribe after the sweep |
| `EventBusSafety.ChannelSafety` | pkg/core/events/component.go:130-219 | a run panics exactly when it contains such an Unsubscribe |
| `EventBusSafety.DoubleCloseIsReachable` | pkg/core/events/component.go:144-148 | a run that closes a channel twice |
| `EventBusProgress.RefusedOnlyWhenStopped` | pkg/core/events/component.go:166-169 | in every run a Send that was refused met a stopped bus |
| `EventBusProgress.SendDelivers` | pkg/core/events/component.go:166-202 | from any reachable state of a bus that is not stopped, a Send with a free lock returns after its own steps, having sent the event to exactly the listed subscribers of its kind: handled, queued, dropped when full, or skipped when closed; nothing else changes |
| `EventBusProgress.StoppedSendsNothing` | pkg/core/events/component.go:166-169 | on a stopped bus it ends at once and changes nothing |
| `EventBusCalls.SubscribeSubscribes` | pkg/core/events/component.go:92-128 | the whole state after an undisturbed Subscribe: unchanged exactly when the bus is stopped or the name is taken, else one new subscriber listed last, asynchronous and draining exactly when it should be |
| `EventBusCalls.UnsubscribeRemoves` | pkg/core/events/component.go:130-164 | the whole state after its locked part: the one subscriber of that name is off the list and closed, the rest untouched; without one nothing changes |
| `EventBusCalls.UnsubscribeReturns` | pkg/core/events/component.go:160-163 | an Unsubscribe that waits returns after the drainer's own steps |
| `EventBusCalls.StartLaunches` | pkg/core/events/component.go:75-89 | the first Start launches exactly the listed asynchronous subscribers without a drainer, unless stopped; a second does nothing |
| `EventBusCalls.DrainOne` | pkg/core/events/component.go:229-238 | a drainer of a closed channel processes everything taken and exits |
| `EventBusCalls.WaitCompletes` | pkg/core/events/component.go:204-219 | WaitForDone stops the bus, closes every listed channel and, after the drainers' own steps, returns with all of them exited |
| `EventBusCalls.NamesAreUnique` | pkg/core/events/component.go:104-109 | in every run the listed subscribers of a kind have different names |
| `Informer.Informer.HandleDelta` | pkg/core/controller/informer.go:235-260 | one delta changes store and events together or neither |
| `Informer.Informer.HandleDeltas` | pkg/core/controller/informer.go:222-263 | a batch leaves the store and the events of the deltas before the first failure, and reports whether there was one |
| `Informer.DeltaDoes` | pkg/core/controller/informer.go:235-260 | exactly when a delta is carried out, the one key it changes, and the event with what it replaced |
| `Informer.BatchApplies` | pkg/core/controller/informer.go:222-263 | a batch of resources on an indexer that does not fail is carried out whole, one event each, and every key ends as the last delta about it says |
| `Informer.ErrorKeepsPrefix` | pkg/core/controller/informer.go:233-262 | what is applied and emitted is exactly the prefix before the first failing delta |
| `Informer.EventsRebuildStore` | pkg/core/controller/informer.go:222-294 | for every batch, failing or not, replaying the emitted events rebuilds the final store |
| `Informer.FaithfulIffTruthful` | pkg/core/controller/informer.go:240-260 | an applied delta's event tells the truth about the store exactly when a deletion carries the stored object; an upsert's always does, whatever its lookup answered |
| `Informer.BatchFaithfulIff` | pkg/core/controller/informer.go:222-263 | the same for whole batches |
| `Informer.BatchKeepsKeys` | pkg/core/controller/informer.go:222-263 | every resource stays under its own key |
| `Resources.KeyFixesMesh` | pkg/core/resource/model/resource.go:63-65 | mesh names without a slash and names are recovered from resource keys |
| `Counters.Counter.Get` | pkg/console/counter/counter.go:37-45 | the sum over all groups |
| `Counters.Counter.Increment` | pkg/console/counter/counter.go:56-63 | one more in the normalised group, nothing else |
| `Counters.Counter.Decrement` | pkg/console/counter/counter.go:65-79 | one less in the normalised group, dropped at zero, nothing else |
| `Counters.MinusCounts` | pkg/console/counter/counter.go:65-79 | a decrement lowers exactly one count, never below zero, and keeps only positive entries |
| `Counters.DistributionCounter.Increment` | pkg/console/counter/counter.go:100-113 | one more in the normalised cell |
| `Counters.DistributionCounter.Decrement` | pkg/console/counter/counter.go:115-139 | one less in the normalised cell, pruning empty cells and groups |
| `Counters.PlusCellCounts` | pkg/console/counter/counter.go:100-113 | an increment raises exactly one cell and keeps groups non-empty |
| `Counters.MinusCellCounts` | pkg/console/counter/counter.go:115-139 | a decrement lowers exactly one cell, never below zero, and leaves no empty group |
| `Counters.DistributionCounter.GetAll` | pkg/console/counter/counter.go:141-151 | each key's number summed over all groups |
| `Counters.DistributionCounter.GetByGroup` | pkg/console/counter/counter.go:153-168 | exactly the cells of the normalised group |
| `InstanceLifecycle.InstanceSubscriber.ProcessRpcUpsert` | pkg/core/discovery/subscriber/rpc_instance.go:104-139 | unidentified reports do nothing; a known instance is merged without an event; a new one is stored and announced |
| `InstanceLifecycle.InstanceSubscriber.ProcessRpcDelete` | pkg/core/discovery/subscriber/rpc_instance.go:141-174 | the cleared instance is kept and announced as updated when a field only the platform fills is set, else removed and announced as deleted |
| `InstanceLifecycle.InstanceSubscriber.ProcessRuntimeUpsert` | pkg/core/engine/subscriber/runtime_instance.go:98-134 | merged into the related instance without an event, or a new identified instance, stored and announced |
| `InstanceLifecycle.InstanceSubscriber.ProcessRuntimeDelete` | pkg/core/engine/subscriber/runtime_instance.go:137-170 | the cleared instance is kept and announced as updated when its register time is not empty, else removed and announced as deleted |
| `InstanceLifecycle.ApplicationSubscriber.EnsureApplication` | pkg/core/discovery/subscriber/service_provider_metadata.go:138-162 | a named application is stored, without instances, and announced exactly when it is new; a known one is left alone |
| `InstanceLifecycle.ApplicationSubscriber.ProcessInstance` | pkg/core/discovery/subscriber/instance.go:62-108 | a new application is stored with the number of instances listed and announced; a known one gets the number, unannounced |
| `InstanceLifecycle.HandlersAreProper` | pkg/core/discovery/subscriber/rpc_instance.go:104-174 | on a store of instances under their own keys, every handler creates only new instances and rewrites or removes only stored ones, keeping their mesh |
| `InstanceLifecycle.RegistrationIsStored` | pkg/core/discovery/subscriber/rpc_instance.go:104-183 | a registration with application, address, port and a mesh of its own is stored with what it announces, and announced exactly when new; any other is passed over |
| `InstanceLifecycle.DeploymentIsStored` | pkg/core/engine/subscriber/runtime_instance.go:117-134 | likewise for a runtime report that leads to no stored instance |
| `InstanceLifecycle.RelatedIs` | pkg/core/engine/subscriber/runtime_instance.go:172-284 | the instance a runtime report belongs to: its own key first, else the one the indexes lead to |
| `InstanceLifecycle.DeploymentIsMerged` | pkg/core/engine/subscriber/runtime_instance.go:98-116 | a runtime report is merged into that instance, unannounced, and touches only the platform's fields |
| `InstanceLifecycle.RegistrationEnds` | pkg/core/discovery/subscriber/rpc_instance.go:141-174 | the store and the event after the end of a registration, for every stored instance: cleared and kept with Updated, or removed with Deleted |
| `InstanceLifecycle.DeploymentEnds` | pkg/core/engine/subscriber/runtime_instance.go:137-170 | likewise for the end of a runtime report |
| `InstanceReports.StepTracksIff` | pkg/core/discovery/subscriber/rpc_instance.go:104-174 | judged before the call: a handler loses a reported instance exactly when it removes one that another source still reports, and leaves an unreported one exactly when a report ends or moves without its instance |
| `InstanceReports.ReportedStaysStoredIff` | pkg/core/engine/subscriber/runtime_instance.go:98-170 | over every sequence of handlings: whatever a registry or the platform reports stays stored throughout, exactly when no runtime report ends on an instance that is registered without a timestamp, or that is not registered and has another runtime report, and no registration ends on a deployed instance that no platform field marks |
| `InstanceReports.StoredIffReportedIff` | pkg/core/engine/subscriber/runtime_instance.go:98-170 | over every sequence of handlings: an instance is stored exactly while it is reported, throughout, exactly when no handling forgets or strands one |
| `InstanceReports.StepKeepsInvariant` | pkg/core/resource/apis/mesh/v1alpha1/instance_helper.go:44-136 | a stored instance carries the register time last announced, empty when it is not registered, and is marked as its last runtime report marked it |
| `InstanceReports.RegisteredIsForgotten` | pkg/core/engine/subscriber/runtime_instance.go:147-166 | an instance registered without a timestamp is removed with its pod |
| `InstanceReports.DeployedIsForgotten` | pkg/core/discovery/subscriber/rpc_instance.go:150-172 | a pod whose report marks nothing loses its instance when the registration ends |
| `InstanceReports.MovedPodStrands` | pkg/core/engine/subscriber/runtime_instance.go:98-134 | a pod reported under another name leaves its first instance stored and unreported |
| `CounterManager.SimpleStepIff` | pkg/console/counter/manager.go:234-255 | for any event and any change of the store: a per-mesh count stays equal to the recount exactly when the store changed, mesh by mesh, as the event says |
| `CounterManager.DistributionStepIff` | pkg/console/counter/manager.go:257-304 | the same for a distribution, cell by cell |
| `CounterManager.SimpleSilentIff` | pkg/core/discovery/subscriber/rpc_instance.go:117-125 | a change of the store without an event keeps a count by mesh right exactly when no mesh changes |
| `CounterManager.DistributionSilentIff` | pkg/core/discovery/subscriber/rpc_instance.go:117-125 | the same for a distribution, cell by cell |
| `CounterManager.FollowsRemove` | pkg/console/counter/manager.go:276-278 | a deletion counts right exactly when the object it carries is in the class the stored one was counted in |
| `CounterManager.FollowsNothing` | pkg/console/counter/manager.go:276-278 | a deletion of nothing counts right exactly when nothing of its class is counted |
| `CounterManager.FollowsMove` | pkg/console/counter/manager.go:290-304 | moving one from the stored resource's cell to the new one's is what replacing it does to the recount |
| `CounterManager.LoadAgreesIff` | pkg/console/counter/component.go:224-245 | a loaded distribution equals the recount exactly when every instance is complete for that metric |
| `CounterManager.UnnamedProtocolMiscounts` | pkg/console/counter/component.go:227-232 | a load that skips an instance the events would count |
| `CounterManager.TotalIsStoreSize` | pkg/console/counter/counter.go:37-45 | the total of an agreeing counter is the number of resources |
| `CounterManager.KeyTotalIsRecount` | pkg/console/counter/counter.go:141-151 | each key's total is the number of resources with that key |
| `CounterManager.DistributionTotalIsSize` | pkg/console/counter/counter.go:141-151 | what GetAll reports adds up to the number of resources |
| `CounterManager.MeshTotalIsCount` | pkg/console/counter/counter.go:153-168 | within a mesh every distribution adds up to the mesh's resource count |
| `CounterManager.MeshCountMeans` | pkg/console/counter/manager.go:148-156 | a right count by mesh is the number of stored resources of that mesh, those without one under default |
| `CounterManager.CellMeans` | pkg/console/counter/manager.go:158-167 | a right cell is the number of stored instances of the mesh with that protocol, release or mesh, an empty one under unknown |
| `CounterComponent.Manager.ProcessSimpleCounter` | pkg/console/counter/manager.go:234-255 | the counter moves as the event type says |
| `CounterComponent.Manager.Update` | pkg/console/counter/manager.go:290-304 | one resource moves from its old cell to its new one, or stays |
| `CounterComponent.Manager.ProcessDistributionCounter` | pkg/console/counter/manager.go:257-281 | the distribution moves as the event type says |
| `CounterComponent.Manager.HandleEvent` | pkg/console/counter/manager.go:197-211 | all counters of the kind move together, unless the leader flag is wired and false |
| `CounterComponent.Manager.InitializeResourceCount` | pkg/console/counter/component.go:200-249 | in whatever order the store lists its resources, the kind's counters end as a load of that store and the others are untouched |
| `CounterComponent.Manager.InitializeCountsFromStore` | pkg/console/counter/component.go:184-198 | the kinds before the first unroutable one are loaded, the others empty |
| `CounterComponent.Manager.OnStartLeading` | pkg/console/counter/component.go:145-151 | the flag is set and the counters hold a fresh load |
| `CounterComponent.Manager.OnStopLeading` | pkg/console/counter/component.go:152-156 | the flag is cleared and every counter is empty |
| `CounterComponent.EventKeepsAgreementIff` | pkg/console/counter/manager.go:197-304 | for any event and any change of one store: all counters stay equal to the recounts exactly when that store changed, in every class counted for its kind, as the event says |
| `CounterComponent.FloorIsNotHit` | pkg/console/counter/counter.go:71-78 | a faithful event never takes from a count that is zero, by mesh or by cell |
| `CounterComponent.EventsKeepAgreement` | pkg/console/counter/manager.go:197-304 | any sequence of faithful events keeps every counter equal to the recount |
| `CounterComponent.LoadAgrees` | pkg/console/counter/component.go:165-198 | a full load agrees with the stores exactly when every instance is complete |
| `CounterComponent.ReportedTotals` | pkg/console/counter/manager.go:133-167 | the reported totals are the store sizes, the per-key recounts and the per-mesh counts |
| `CounterRuns.MetadataKeepsIff` | pkg/core/controller/informer.go:240-260 | judged before the delta: the count of provider metadata stays right exactly when the resource keeps its mesh, a deletion finds its resource or nothing counted in the mesh, and nothing comes or goes unheard |
| `CounterRuns.BatchIsRun` | pkg/core/controller/informer.go:222-263 | a batch, failing or not, is a run of single deltas with the same store and counters at the end |
| `CounterRuns.EffectKeepsMeshCountIff` | pkg/core/discovery/subscriber/rpc_instance.go:104-174 | what a handler does keeps the count of instances right exactly when it is heard or nothing comes or goes |
| `CounterRuns.LifecycleKeepsIff` | pkg/core/discovery/subscriber/rpc_instance.go:104-174 | judged before the call: a handler keeps a distribution right exactly when it is heard or nothing comes or goes and, by protocol or release, a merge announces the counted key and an instance leaving the registry was counted as unknown |
| `CounterRuns.DeletionLeaks` | pkg/core/discovery/subscriber/rpc_instance.go:150-172 | a deletion of an instance counted under a real key leaves that cell one above the recount |
| `CounterRuns.OrdinaryDeletionMiscounts` | pkg/core/discovery/subscriber/rpc_instance.go:104-174 | registering one instance and removing it leaves its protocol counted with no instance left |
| `CounterRuns.LoadKeepsIff` | pkg/console/counter/component.go:165-198 | a load is right exactly when the stores up to its kind can be reached, or its store is empty, and every instance is complete for a distribution |
| `CounterRuns.StepExactIff` | pkg/console/counter/manager.go:197-304 | exactly which steps keep each of the six counts right, judged before the step |
| `CounterRuns.CountsAreRecountsIff` | pkg/console/counter/component.go:112-182 | over every run of this replica and of others that write the stores: each count equals a recount in every state in which this replica leads exactly when every step keeps it |
| `CounterRuns.MeshCountsAreRecounts` | pkg/console/counter/component.go:112-182 | a replica that hears every change has right counts by mesh in every run, whatever the registry and the platform report |
| `CounterRuns.ElsewhereMiscounts` | pkg/console/counter/component.go:141-161 | a run in which another replica stores an instance and every count of instances of the leader is wrong |
| `OAuthStore.TransactionStore.RemoveExpired` | pkg/console/auth/service.go:236-244 | exactly the expired transactions go; map and queue stay in bijection |
| `OAuthStore.TransactionStore.Put` | pkg/console/auth/service.go:205-219 | refused exactly when capacity other unexpired transactions exist; otherwise the timed map with this entry; queue sorted, size within capacity |
| `OAuthStore.TransactionStore.Consume` | pkg/console/auth/service.go:221-234 | the unexpired transaction or nothing, and the entry is gone either way |
| `OAuthStore.TransactionStore.Remove` | pkg/console/auth/service.go:246-250 | one entry leaves map and queue together |
| `OAuthStore.FullLeavesNoRival` | pkg/console/auth/service.go:209-215 | the capacity test after removing the same state is the test over other transactions |
| `OAuthService.Service.Begin` | pkg/console/auth/service.go:111-135 | outcome and store are those of the timed map for the same draws |
| `OAuthService.Service.Complete` | pkg/console/auth/service.go:137-159 | likewise, with each refusal in the source's order and the entry consumed before the later checks |
| `OAuthService.StoredWasBegun` | pkg/console/auth/service.go:111-135 | whatever is stored was stored by an earlier Begin exactly as it prepared it |
| `OAuthService.AuthenticateMatchesBegin` | pkg/console/auth/service.go:111-159 | Authenticate is called only with a code and a matching cookie, after a Begin of the same provider and state, before expiry, with that Begin's verifier (as section 4.5 of RFC 7636 requires) and nonce |
| `OAuthService.ConsumedStaysGone` | pkg/console/auth/service.go:221-234 | a consumed state never returns to the store while states are drawn distinct |
| `OAuthService.AuthenticateOnce` | pkg/console/auth/service.go:137-159 | no two Authenticate calls share a state |
| `OAuthService.UnexpiredIsKept` | pkg/console/auth/service.go:205-244 | a transaction stays stored until it expires or is consumed, whatever else happens, including completions with a foreign cookie |
| `OAuthService.CompleteReachesAuthenticate` | pkg/console/auth/service.go:137-159 | so a timely Complete with matching provider, state and code reaches Authenticate |
| `OAuthService.AuthenticatesIff` | pkg/console/auth/service.go:111-159 | over every session in order of time: a Complete reaches Authenticate exactly when its cookie matches, it brings a code, and an earlier Begin opened the transaction, which is unexpired and not used up |
| `OAuthService.BeginAnswers` | pkg/console/auth/service.go:111-135 | each answer of Begin and exactly when it is given |
| `OAuthService.BeginKeepsOthers` | pkg/console/auth/service.go:205-244 | a Begin purges what has expired and pushes nothing else out |
| `OAuthService.CompleteAnswers` | pkg/console/auth/service.go:137-159 | each answer of Complete and exactly when it is given; the transaction is used up exactly when the cookie matches |
| `RuleHistory.Rule.TrimVersions` | pkg/core/versioning/resource_store_version.go:300-328 | deleting one by one leaves the newest versions and, when stopped early, the oldest ones not yet reached |
| `RuleHistory.Rule.Append` | pkg/core/versioning/resource_store_version.go:226-298 | a recorded version gets the next number and is last; an error after the write keeps it |
| `RuleHistory.Rule.EnsureBaselineHistory` | pkg/console/service/rule_version.go:91-110 | a rule without history gets one baseline version, others none |
| `RuleHistory.Rule.CreateRule` | pkg/console/service/rule_version.go:134-145 | history and live rule after every combination of failures, and success exactly when every effect succeeded |
| `RuleHistory.Rule.UpdateRule` | pkg/console/service/rule_version.go:147-165 | likewise, baseline first, refused when the rule is not live |
| `RuleHistory.Rule.DeleteRule` | pkg/console/service/rule_version.go:167-188 | likewise; deleting an absent rule succeeds and does nothing |
| `RuleHistory.Rule.GetVersion` | pkg/core/versioning/resource_store_version.go:36-45 | the version with that number |
| `RuleHistory.Rule.RollbackRuleVersion` | pkg/console/service/rule_version.go:242-308 | likewise, with every refusal; the result is the number after the last |
| `RuleHistory.RunKeepsRecordIff` | pkg/console/service/rule_version.go:91-308 | over every run of calls failing anywhere, at any window: the live rule is recorded in every state exactly when every call keeps it |
| `RuleHistory.CallKeepsRecordIff` | pkg/console/service/rule_version.go:91-308 | for each call and outcome, exactly when it keeps the live rule recorded |
| `RuleHistory.RunKeepsWriteAhead` | pkg/console/service/rule_version.go:91-308 | after any sequence of calls failing anywhere, a non-empty history contains the live rule, as long as each recorded change that misses the live rule finds it fewer than max - 1 versions behind |
| `RuleHistory.UnlimitedKeepsWriteAhead` | pkg/console/service/rule_version.go:91-308 | without retention nothing but a create over an unrecorded live rule can lose it |
| `RuleHistory.StepBehind` | pkg/console/service/rule_version.go:91-308 | how far each call, with its failures, can put the live rule behind the newest version: a write brings it level, a version recorded without it adds one |
| `RuleHistory.WindowToleratesMisses` | pkg/core/versioning/resource_store_version.go:291-328 | a window of max versions tolerates max - 1 recorded but unwritten updates in a row, and not max |
| `RuleHistory.ChangeKeepsRecordIff` | pkg/console/service/rule_version.go:147-188 | for each outcome, exactly when a change keeps a live rule recorded under retention |
| `RuleHistory.ChangeIsSafeIff` | pkg/console/service/rule_version.go:147-308 | before the call: a change keeps the live rule recorded whatever fails exactly when it does not change the content or the window keeps a version of it |
| `RuleHistory.CreateIsSafeIff` | pkg/console/service/rule_version.go:134-145 | before the call: a create is safe whatever fails exactly when nothing is live, the content is the live one, or the history holds it within the window |
| `RuleHistory.UpdateIsSafeIff` | pkg/console/service/rule_version.go:147-165 | the same for an update, whose baseline comes first |
| `RuleHistory.DeleteIsSafeIff` | pkg/console/service/rule_version.go:167-188 | the same for a delete |
| `RuleHistory.RollbackIsSafeIff` | pkg/console/service/rule_version.go:242-308 | the same for a rollback that is not refused |
| `RuleHistory.SurvivorsAreNewest` | pkg/core/versioning/resource_store_version.go:311-325 | a complete trim keeps exactly the newest versions |
| `RuleHistory.RetentionKeepsNewest` | pkg/core/versioning/resource_store_version.go:291-328 | a complete trim leaves exactly the newest max versions, the new one among them |
| `RuleHistory.RetainKeepsIff` | pkg/core/versioning/resource_store_version.go:300-328 | which versions are left when a trim stops early: the window, and the oldest beyond it |
| `RuleHistory.RetentionLosesLive` | pkg/core/versioning/resource_store_version.go:291-295 | a window of one and a failed write leave the live rule unrecorded |
| `RuleHistory.CreateKeepsRecordIff` | pkg/console/service/rule_version.go:134-145 | for each outcome, at any window, exactly when a create keeps the live rule recorded |
| `RuleHistory.CreateOverLiveLosesIt` | pkg/console/service/rule_version.go:134-145 | an instance where it does not |
| `RuleHistory.NumbersAreNeverReused` | pkg/core/versioning/resource_store_version.go:241-290 | over every run a version number means one version, whatever retention removed |
| `RuleHistory.HistoryIsAppendOnly` | pkg/core/versioning/resource_store_version.go:226-298 | without retention every earlier history is a prefix of every later one |
| `RuleHistory.SucceedsIff` | pkg/console/service/rule_version.go:134-308 | a call reports success exactly when it applies (a rule to edit; for a rollback a reason and a restorable version that differs) and nothing goes wrong; a call that does not apply changes nothing |
| `RuleHistory.CallIsRecorded` | pkg/console/service/rule_version.go:134-308 | a call that goes well is recorded last, under the next number, with its operation, author kind and content; a rollback as one, with the version it came from |
| `RuleHistory.LiveFollowsRecord` | pkg/console/service/rule_version.go:134-308 | the live rule is written exactly when the call was recorded without error and the write happens, to what the latest version says |
| `RuleHistory.SuccessAgrees` | pkg/console/service/rule_version.go:134-308 | after a success the latest version records the call and the live rule is what it says |
| `RuleHistory.ChangeKeepsEarlier` | pkg/console/service/rule_version.go:91-188 | a rule edited for the first time has its old content on record as an imported version 1, and earlier versions stay as far as retention leaves them |
| `RuleHistory.RollbackRestores` | pkg/console/service/rule_version.go:242-308 | every recorded content that differs from the live one can be restored, and the restoration is recorded as a rollback from that version |
| `RuleHistory.CanRestoreIff` | pkg/console/service/rule_version.go:242-308 | a rollback can bring back exactly the contents that are recorded |
| `RuleHistory.UpdateIsUndoneIff` | pkg/console/service/rule_version.go:147-308 | a successful update can be undone exactly when retention left a version with the old content, as it does whenever the window keeps one |
| `RelatedTypes.BuildTypeMap` | pkg/console/service/service.go:348-368 | exactly the declared names, each with its first declaration |
| `RelatedTypes.FirstDeclaredHoldsFirst` | pkg/console/service/service.go:347-368 | keeping the first declaration is right for every list of declarations |
| `RelatedTypes.DeclarationsAre` | pkg/console/service/service.go:348-368 | the declarations are exactly the named types of the providers |
| `RelatedTypes.FirstIsHeld` | pkg/console/service/service.go:348-368 | what is held for a name is what the first provider that declares it says first |
| `RelatedTypes.Walk.CollectRelatedTypes` | pkg/console/service/service.go:371-390 | ends on cyclic type graphs; adds only types its start reaches, each with everything it mentions |
| `RelatedTypes.CollectAll` | pkg/console/service/service.go:323-327 | the visited set is exactly what the parameter and return types reach |
| `RelatedTypes.ClosedContainsReach` | pkg/console/service/service.go:370-390 | a visited set closed under mentions contains every path out of it |
| `RelatedTypes.BuildRelatedTypes` | pkg/console/service/service.go:316-345 | strictly increasing names, exactly the reachable ones, each response with all the first declaration says; nothing without a method |
| `RelatedTypes.RelatedIsDeclared` | pkg/console/service/service.go:371-378 | related types are declared and not blank |
| `ConditionExpression.ToExpression` | pkg/console/model/condition_rule.go:73-102 | the loops build the expression of any argument, including several destinations |
| `ConditionExpression.ParseFromPart` | pkg/console/model/condition_rule.go:313-337 | the last method piece and all conditions with an index, in order |
| `ConditionExpression.ParseToPart` | pkg/console/model/condition_rule.go:379-402 | no destination for empty text, else one of weight 0 with all conditions that have a tag |
| `ConditionExpression.ParseConditionExpression` | pkg/console/model/condition_rule.go:290-310 | both parts, the second up to the next arrow |
| `ConditionExpression.ParseIsReadable` | pkg/console/model/condition_rule.go:290-430 | for any text, what the parser can produce: trimmed, separator-free fields, first relation sign between them, at most one destination |
| `ConditionReading.FromReads` | pkg/console/model/condition_rule.go:313-376 | any terms joined by "&", with white space anywhere around their parts, give the last method and every comparison with a subject, in order: arguments by index, all others by name |
| `ConditionReading.ToReads` | pkg/console/model/condition_rule.go:379-430 | behind the arrow, every comparison with its left side as tag, in order |
| `ConditionReading.ExpressionReads` | pkg/console/model/condition_rule.go:290-310 | the two together, one destination unless the text behind the arrow is blank; what follows a second arrow is ignored |
| `ConditionReading.EveryTextReads` | pkg/console/model/condition_rule.go:290-430 | every text whatsoever is such a list of terms, and is parsed into what they say |
| `ConditionRoundTrip.RoutesBackIff` | pkg/console/model/condition_rule.go:76-79 | any number of route conditions comes back exactly when no value forms an arrow with its sign |
| `ConditionRoundTrip.ConditionsBackIff` | pkg/console/model/condition_rule.go:384-394 | a destination's conditions come back exactly when none forms an arrow or a false not-equal sign |
| `ConditionRoundTrip.RoundTripIff` | pkg/console/model/condition_rule.go:73-430 | parsing an argument's expression gives the argument back exactly on the stated domain |
| `ConditionRoundTrip.OrdinaryRoundTrip` | pkg/console/model/condition_rule.go:73-430 | in particular for ordinary fields, any number of conditions and at most one non-empty destination of weight 0 |
| `ConditionRoundTrip.ManyDestinationsAreLost` | pkg/console/model/condition_rule.go:86-98 | several destinations never come back |
| `ConditionDestinations.DestinationsMerge` | pkg/console/model/condition_rule.go:73-430 | any number of non-empty destinations comes back as one with all their conditions in order, the commas stuck to the values, and weight 0 |
| `ConditionDestinations.WrittenAlike` | pkg/console/model/condition_rule.go:73-102 | every relation but "=" is written as "!=" and weights are not written |

## Left out

- Generated protobuf code, HTTP handlers, sessions and cookies, provider and registry clients, the web UI: I/O without logic of its own.
- TopologicalSort: requires a graph built from distinct component types, as the registry enforces (`pkg/core/runtime/registry.go:95-102`); with duplicates the edges and the in-degrees disagree. Error texts are not modelled.
- SortComponents: requires distinct component types for the same reason.
- Lease rows: timestamp precision and wrap-around of the 64-bit version are not modelled. One row per component is one atomic record; the clock is shared and does not run backwards.
- RunLeaderElection: timers, contexts and the renew and retry intervals become the sequence of wake-ups.
- Event bus: lock fairness, a recursive Send from inside a subscriber, and errors returned by subscribers are left out; calls and drainers interleave at lock, channel and flag operations, on values rather than on a shared object.
- SendDelivers: is about a Send that gets the lock and runs to its end by itself, as are the lemmas of `EventBusCalls` about the other calls; what holds under every interleaving is `SendOffersOnce`, `RefusedOnlyWhenStopped`, `EventConservation` and the other run lemmas.
- Informer: the delta queue and the reflector are left out and batches are arbitrary; Run, Stop and resync are not modelled, so nothing is said about whether an informer runs in a second leadership term.
- Counters: int64 wrap-around, locking and the subscription in Bind are left out; the initial load is one step, not interleaved with events; registration is the fixed set of `newCounterManager`.
- Instance lifecycle: a handler's lookup and write are one step, and a handling that fails changes nothing; merging into an instance without a spec, which would crash, leaves the store alone; the instance that the name and address indexes lead to, and the runtime instance found for a new one, are inputs; registries name an RPC instance like the instance made from it (`pkg/core/resource/apis/mesh/v1alpha1/rpc_instance_helper.go:33-84`); that an in-memory store shares the cleared object with the subscriber is not modelled, nor are lifecycle event records.
- Counter runs: heard events are handled in the order of the store changes. Provider metadata written by the ZooKeeper subscriber is a single delta.
- MeshCountsAreRecounts: requires that every change is heard, that provider metadata has mesh names without a slash, that a deletion that is carried out names a stored key, and that all stores can be reached when a term starts; `CountsAreRecountsIff` needs none of this.
- Put: requires a clock that does not run backwards, as the sorted expiry queue does.
- Login service: authorization URLs, the PKCE challenge hash and the providers' Authenticate are opaque; locking is left out; random draws are inputs, assumed distinct where a lemma says so.
- AuthenticatesIff: requires states drawn distinct and requests in order of time.
- Rule history: one rule under its lock; the versioning service's retry loop for concurrent writers, hash collisions, and re-encoding of a rolled-back spec are left out, as are edits outside the console.
- RunKeepsWriteAhead: requires that a create over a live rule finds a history, or writes the same content, and under retention the stated distance; `RunKeepsRecordIff` needs neither.
- Listing, diffing and bootstrapping versions, and the other rule services: easy case splits on the same state.
- Service methods: signatures, search, paging and invocation in the same file are not modelled.
- Condition rules of version 3.1 and their other parsers (`pkg/console/model/condition_rule.go:104-241`): not modelled; weights are unbounded integers.
- Strings are sequences of Unicode characters; invalid UTF-8 is not modelled.
