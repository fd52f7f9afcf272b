# The CPU pool policy in Dafny

A model of the CPU pool policy for the Kubernetes CPU manager, with proofs about single operations and about whole
runs. `dafny verify dfyconfig.toml` checks everything.

The policy divides the CPUs of a node into named pools. A container that requests whole CPUs gets them exclusively
out of the shared CPUs of its pool; any other container runs on what its pool shares. A configuration says which CPUs
each pool has, whether they are isolated from the kernel's scheduler, and whether their hyperthread siblings must be
offline ("HT-free"). At most one pool of each isolation class may claim the CPUs left over. A configuration that cannot
be taken in use now stays pending and is tried again whenever a container is released.

| module | what it covers |
|---|---|
| CpuSets, Topology, IdText | CPU sets, the CPU topology, textual ids and id lists |
| Sysfs | the discovered system and the bookkeeping of offline CPUs |
| AllocSpec, Allocator | what the CPU allocator promises, and its three greedy phases with their memoised lookups |
| Choices | which CPUs a request, or several in turn, can get |
| NodeConfigs | configuration files and what parsing them gives |
| Preparation | the check of a configuration, order by order and without any order |
| PoolMetrics | the metrics cache |
| PoolState, Reconciliation | the state of the pool set as a value, its invariant, and what each operation does to it |
| Settings | what configurations stand for, entry by entry |
| Pools | the pool set: mutable pools, and the methods that change them |
| Outcomes | what taking a configuration in use can lead to: the outcomes exist, and what containers can get in them |
| Runs | events, runs of events, and what holds in every state |
| Conflicts | what reconfigurations can do to containers with exclusive CPUs |
| Promises, FirstStart | what every event and every run comes to, in terms of pools, containers, CPUs and files alone |
| StaleSets, Surprises | concrete worlds in which the code does what one might not expect |
| Policy | adding and removing containers, configuring and publishing |

Objects that the original updates in place are classes here (`System`, `SysfsSingleton`, `CpuAllocator`, `Metrics`,
`Pool`, `PoolSet`, `ManagerState`, `PoolPolicy`), and every loop over a Go map visits the keys in an arbitrary order.
The methods of `PoolSet` are proved against relations between states, seen as values through `Abs()`; the theorems are
about those relations, so they hold for every iteration order and every choice of the allocator that the phases allow.
`Promises`, `Settings` and `FirstStart` say what the relations come to without using the functions they are made of.

## What the theorems assume

- `ValidTopology`: being a sibling is an equivalence whose classes lie inside one package, ids are not negative, and CPU 0
  exists. Isolated CPUs exist. The allocator sees at least one online thread per core; its offline CPUs are those its own
  system had at discovery, not those of the pool set's system.
- `Ready` and `ReservedIsConcrete`: the configuration gives the reserved pool CPUs or a count that is not negative. The
  code crashes on others: `ParsedIsReady` says exactly which parsed files they come from.
- `NoneOverlooked`: no pool named "" claims leftovers. Such a pool gets nothing (see below), and the theorems about what an
  accepted configuration leads to exclude it; `AcceptsMeans`, `VerdictDependsOnOrder` and `PreparationMeans` do not. A pool
  named "" that names its CPUs is an ordinary one.
- `Serviceable`: the reserved and the default pool exist, and the pools of containers without exclusive CPUs. The getters crash
  otherwise; it holds in every steady state.
- `Gentle`, in the theorems about runs: a configuration that is accepted names every pool and the default pool, no HT-free
  pool claims leftovers, no pool's pinned CPUs go to another pool, and each pool keeps as many usable CPUs as it has
  pinned, unless a single container pins all it then has. `ApartIff` shows that, given enough CPUs, the condition on pinned
  CPUs is exactly what keeps pools disjoint; `KeepingIsGentle` that letting each pool keep its pinned CPUs is enough;
  `GentleAfterRelease` that releases never spoil it.

## What the code does that one might not expect

- A pool named "" that claims leftovers is overlooked as a claimant, so whether such a configuration is accepted can depend on
  the iteration order of a map: `VerdictDependsOnOrder` says exactly when, and `NamelessPool` gives a file that the parser
  accepts. No other configuration has this problem.
- A pool that a new configuration drops is never purged, since nothing clears its configuration: it keeps its CPUs and stays.
  `ApartIff` says when it then overlaps other pools, and `DroppedPoolOverlaps` shows it. Containers can still be added to it;
  once it is in use, every configuration that does not name it is rejected, and the rollback deletes the pool under its
  containers, which the getters then crash on (`DroppedPoolIsLost`, `DroppedPoolDeleted`). After a rejection a container's pool
  exists exactly if the current configuration names it (`RollbackKeepsPoolsIff`).
- When fewer CPUs are usable than requested, but more are in the set, the allocator returns nothing and no error, and the usable
  CPUs are lost to the pool. `RestKeptIff`, `CapacityKeptIff` and `AddKeepsCapacityIff` say exactly when, `LostCpu` shows it.
- A rejected configuration may already have replaced the set of CPUs to take offline (`RejectedKeeps`); it is not acted upon.
- CPU 0 cannot be taken offline. With an empty reserved pool it can be a sibling of an HT-free pool, which is then not HT-free
  (`OffliningMeans`, `SiblingOfCpu0`).
- A pool keeps CPUs that have just been taken offline as siblings of another pool's exactly if it had pinned them
  (`PoolsOnlineIff`). They may end up shared, or again as exclusive CPUs of a container: `ExclusiveOnlineIff` says exactly when
  that can happen, and `KeptOffline` shows a container that is bound to keep one.
- A configuration picked up while the policy is active is not published. Exclusive CPUs may have moved by then, to CPUs that
  others were told to use (`StaleDefault`), until a container is removed or successfully added; the same configuration may also
  be bound to leave everything in place (`StaysWhereItIs`). Two conditions on the state and the configuration alone are exact:
  `HarmlessIff` says when no outcome conflicts with what is published, `CanStayApartIff` when some outcome does not. Where no two
  containers have exclusive CPUs of one pool, `SoleIff` puts both in terms of the whole packages and cores the allocator is bound
  to take and the other usable CPUs. `ApartOverRuns` says that no conflict ever arises until a configuration is accepted that is
  not harmless. Between the two conditions it depends on what the state does not determine: single threads are taken in an order
  given by sorting with a comparison that is no strict weak order, and the containers of a pool are visited in map order.
- Requests for the pools `ignored` and `offline` fail for exclusive CPUs but succeed, with no CPUs and no record, for shares.

## Model

| member | source | states |
|---|---|---|
| Promises.PublishedOverRuns | cmd/cpu-pool-policy/pool-policy-plugin.go:150-256 | After every removal and every successful addition, and until a configuration is accepted: each container with exclusive CPUs is published with those, any other one with exactly the shared CPUs of its pool, where the reserved and the default pool share theirs, which is also the default set; each pool with 1000 for each of its CPUs; and nobody else is published |
| Promises.AddShared | cmd/cpu-pool-policy/pool/pool.go:569-593 | A container that does not ask for whole CPUs with an equal limit, or asks for the pool "reserved", gets a share: it is recorded and its request charged to its pool, whose CPUs stay as they are, and everything is published; nothing at all happens for an unknown pool, and to the pools for "ignored" and "offline" |
| Promises.AddExclusive | cmd/cpu-pool-policy/pool/pool.go:532-566 | A container that asks for n whole CPUs of another pool, of "default" if it names none, is recorded with n of the shared CPUs that the allocator can use, which become pinned; with all of them if there are n; with none, the usable ones being lost, if fewer are usable; and nothing at all happens if fewer are shared, for an unknown pool, and for "ignored" and "offline" |
| Promises.RemoveMeans | cmd/cpu-pool-policy/pool/pool.go:596-623 | Removing a container gives its exclusive CPUs or its share back to its pool and forgets it, then takes the pending configuration in use or puts it off again, and publishes everything |
| Promises.RemoveRetries | cmd/cpu-pool-policy/pool/pool.go:596-623 | With a configuration pending, a removal takes it in use if and only if it is feasible and the container was the last user of every pool it drops |
| Promises.ConfigureMeans | cmd/cpu-pool-policy/pool/pool.go:401-443 | Trying a configuration publishes nothing; if it is feasible and drops no pool in use it is taken in use, with the CPUs it gives each pool, what each had pinned, exactly the other threads of HT-free pools offline except CPU 0, and every container where it was with as many CPUs; otherwise pools, containers, settings, metrics and online CPUs stay as they are and it stays pending, asking for the same |
| Promises.DropsOnlyIdleIff | cmd/cpu-pool-policy/pool/pool.go:386-395 | A pending configuration is accepted if and only if it would be without any pools and each pool it drops has a use of 0 and no pinned CPU |
| Promises.InUseIsKept | cmd/cpu-pool-policy/pool/pool.go:386-395 | A configuration that drops the pool of a container with exclusive CPUs, or a pool with shares given out, is rejected |
| Promises.ContainersOverRuns | cmd/cpu-pool-policy/pool/pool.go:532-700 | In every state of every run a container's exclusive CPUs are pinned ones of its pool, 1000 of its request for each, neither shared by any pool nor another container's, and not of the pools "reserved", "ignored", "offline" or "" |
| Promises.PoolsOverRuns | cmd/cpu-pool-policy/pool/pool.go:401-443 | In every state of every run the pools "reserved" and "default" exist, the pools are those of the current configuration and carry it, and no CPU is both shared and pinned or in two pools |
| Promises.PublishTells | cmd/cpu-pool-policy/pool-policy-plugin.go:227-256 | Publishing tells everybody as it is now, and of containers and pools that do not exist what was told before |
| FirstStart.FileToPools | cmd/cpu-pool-policy/pool-policy-plugin.go:259-284 | From a configuration file on a node without pools: it is accepted if and only if it is feasible; then each pool with explicit CPUs shares exactly those, the reserved pool as many first CPUs as the file or the policy says if its CPUs are left open, a pool with the wildcard exactly what nobody else has and need not go offline; and with a non-empty reserved pool no CPU of a pool that the file wants HT-free has an online sibling |
| Settings.VerdictMeans | cmd/cpu-pool-policy/pool/pool.go:284-398 | A configuration is acceptable if and only if its reserved pool can be set up, every pool names CPUs of its isolation, no two the same, and nobody a thread beside an HT-free pool, which are not isolated, at most one pool of each isolation claims leftovers and there are some, and every dropped pool has a use of 0 and no pinned CPU |
| Settings.ResolvedSettles | cmd/cpu-pool-policy/pool/pool.go:284-398 | What a configuration settles: leftovers for claimants, the reserved CPUs for the reserved pool, the named ones for any other pool, nothing else changed, and exactly the other threads on the cores of HT-free pools to be offline |
| Settings.ReservedMeans | cmd/cpu-pool-policy/pool/pool.go:218-260 | Explicitly reserved CPUs are kept as they are and accepted if and only if CPU 0 is among them; a number of them is served if and only if there are as many CPUs, with exactly that many first ones, core by core; all other pools are untouched |
| Runs.IsolationOverRuns | cmd/cpu-pool-policy/pool/pool.go:532-700 | In every state of every run of additions, removals and tried configurations, no exclusive CPU of a container is among the CPUs that any other container runs on or among the default CPUs; what was published is isolated in the same way among itself, with as many exclusive CPUs for each container as it has |
| Conflicts.ApartOverRuns | cmd/cpu-pool-policy/pool-policy-plugin.go:150-303 | From any moment at which everything was published, after a removal or a successful addition, no container ever uses exclusive CPUs that another container or the default set was told to use, until a configuration is accepted that is not harmless |
| Conflicts.HarmlessIff | cmd/cpu-pool-policy/pool/pool.go:415-466 | No outcome of taking a configuration in use, for any order of containers and any choice of the allocator, gives a container exclusive CPUs that others were told to use if and only if the configuration is harmless: a condition, on the state and the configuration alone, on the CPUs that each container can get when its pool's containers are served in some order |
| Conflicts.CanStayApartIff | cmd/cpu-pool-policy/pool/pool.go:415-466 | Some outcome keeps all containers apart from what is published if and only if each pool by itself can serve its containers in some order without a conflict |
| Conflicts.SoleIff | cmd/cpu-pool-policy/pool/pool.go:415-466 | Where no two containers have exclusive CPUs of one pool, all outcomes keep containers apart from what is published if and only if others were told nothing of what the allocator can give each of them alone, and some outcome does if and only if none is bound to take, in whole packages and cores or by count, what others were told |
| Conflicts.SoleChoice | cmd/cpu-pool-policy/pool/pool.go:446-466 | The only container with exclusive CPUs of a pool can get all its CPUs if it needs all, just the whole packages and cores that fit if those fill its request, and any usable CPU otherwise |
| Conflicts.ChoiceIsUsable | cmd/cpu-pool-policy/pool/pool.go:446-466 | Containers can only get usable CPUs of their pool, unless together they have all its CPUs |
| Conflicts.DecidedIff | cmd/cpu-pool-policy/pool/pool.go:415-466 | Where each container can get just as many CPUs as it needs, every outcome gives it exactly those, and keeps containers apart from what is published if and only if the configuration is harmless |
| Conflicts.SurelyDisturbed | cmd/cpu-pool-policy/pool/pool.go:415-466 | An accepted configuration that leaves the containers of a pool fewer CPUs to get, not counting those that others were told to use, than they need ends in a conflict, whatever the allocator chooses |
| Conflicts.StepKeepsApart | cmd/cpu-pool-policy/pool-policy-plugin.go:150-284 | One event keeps containers apart from what is published, unless it is an accepted configuration that is not harmless |
| Conflicts.ExclusiveOnlineIff | cmd/cpu-pool-policy/pool/pool.go:415-482 | No outcome of an acceptable configuration leaves a container an offline exclusive CPU if and only if no container can get a CPU that the configuration takes offline |
| Runs.StepExists | cmd/cpu-pool-policy/pool-policy-plugin.go:150-284 | Every event has an outcome in every world that is all right, so none of the statements about all outcomes is empty |
| Runs.FreshOverRuns | cmd/cpu-pool-policy/pool-policy-plugin.go:150-303 | From any moment at which everything was published, what is published is up to date until a configuration is accepted |
| Runs.AccountsOverRuns | cmd/cpu-pool-policy/pool/pool.go:532-783 | In every state of every run the pinned CPUs of a pool are exactly its containers' exclusive CPUs, its usage is the sum of the requests of all its containers, and exactly the pools other than "reserved" and "" are reported, with their shared CPUs, their containers' exclusive CPUs, 1000 for each of both as capacity and the sum of their containers' requests as usage |
| Runs.AssignmentLasts | cmd/cpu-pool-policy/pool/pool.go:446-466 | Over any stretch of a run in which a container is not removed it keeps its pool, its request and its number of exclusive CPUs, whatever else comes, goes or is reconfigured |
| Runs.RunKeeps | cmd/cpu-pool-policy/pool-policy-plugin.go:150-284 | Consistency, the hardware state and the faithfulness of what is published hold in every state of every run |
| Runs.StepKeeps | cmd/cpu-pool-policy/pool-policy-plugin.go:150-284 | One event, with any outcome and any iteration order, keeps all three |
| Runs.AddedKeeps | cmd/cpu-pool-policy/pool-policy-plugin.go:150-185 | Adding a container keeps all three, and either changes nothing at all or publishes exactly the snapshot of the new state |
| Runs.RemovedKeeps | cmd/cpu-pool-policy/pool-policy-plugin.go:188-196 | Removing a container keeps all three, forgets exactly that container, and publishes exactly the snapshot of the new state, even when the release takes a pending configuration in use |
| Runs.TriedKeeps | cmd/cpu-pool-policy/pool-policy-plugin.go:259-284 | Trying a configuration keeps all three and every container's pool, request and number of exclusive CPUs, and publishes nothing |
| Runs.ReconciledKeeps | cmd/cpu-pool-policy/pool/pool.go:401-443 | Whatever comes of the pending configuration, the state stays consistent, no pool disappears, and each container keeps its pool, request and number of exclusive CPUs |
| Runs.StaysFresh | cmd/cpu-pool-policy/pool-policy-plugin.go:150-284 | Every removal and every successful addition brings what is published up to date, and nothing but an accepted configuration makes it out of date |
| Runs.StartsWell | cmd/cpu-pool-policy/pool-policy-plugin.go:259-284 | From a configuration file on an empty pool set, unless it has a wildcard for a pool named "" or for the reserved pool: it is accepted, in whatever order its pools are visited, if and only if the declarative predicate holds of it, and then the published world is all right |
| Runs.FirstAccepted | cmd/cpu-pool-policy/pool/pool.go:401-443 | The first accepted configuration, if it is gentle, establishes everything that later steps keep |
| Runs.AcceptedHardware | cmd/cpu-pool-policy/pool/pool.go:469-482 | After a successful reconfiguration CPU 0 is online, every core has an online thread, and with a non-empty reserved pool no CPU of an HT-free pool has an online sibling |
| Runs.ExactlyOfflined | cmd/cpu-pool-policy/pool/pool.go:469-482 | After a successful reconfiguration exactly the offlined CPUs are offline, apart from CPU 0, which cannot be among them when the reserved pool is not empty |
| Runs.PoolsOnlineIff | cmd/cpu-pool-policy/pool/pool.go:415-482 | After an accepted gentle configuration every pool has only online CPUs if and only if no pool had pinned a CPU, other than CPU 0, that the configuration takes offline |
| Runs.AddKeepsCapacityIff | cmd/cpu-pool-policy/pool/pool.go:532-593 | Adding a container changes the capacity of some pool if and only if it asks for more exclusive CPUs than the allocator can use but fewer than the pool shares |
| Runs.KeepingIsGentle | cmd/cpu-pool-policy/pool/pool.go:415-466 | A configuration that names every pool and leaves each pool its pinned CPUs, all of them usable, meets the condition the run theorems put on configurations |
| Runs.GentleAfterRelease | cmd/cpu-pool-policy/pool/pool.go:596-623 | Releasing a container never makes a configuration harder to take in use |
| Runs.GentleWhenRetained | cmd/cpu-pool-policy/pool/pool.go:409-413 | What is kept of a rejected configuration meets that condition whenever the original did |
| Runs.ReleasedToStaysGentle | cmd/cpu-pool-policy/pool/pool.go:596-623 | With such a configuration pending, releases keep the state consistent and the pending configuration meeting the condition, until it is taken in use |
| StaleSets.StaleDefault | cmd/cpu-pool-policy/pool-policy-plugin.go:287-303 | A concrete consistent, freshly published world in which re-applying the same configuration has an outcome, and every outcome moves a container to a CPU still published as a default one |
| StaleSets.StaysWhereItIs | cmd/cpu-pool-policy/pool-policy-plugin.go:287-303 | A concrete world of the same kind in which re-applying the same configuration has an outcome, and every outcome leaves the container on its CPU and apart from what is published |
| Surprises.NamelessPool | cmd/cpu-pool-policy/pool/pool.go:302-313 | A file with one entry, a wildcard for a pool named "", which the parser accepts and the policy accepts in some iteration orders and rejects in others |
| Surprises.DroppedPoolOverlaps | cmd/cpu-pool-policy/pool/pool.go:386-431 | A concrete idle pool set and a configuration that drops a pool: there is an outcome, and every outcome leaves the dropped pool with a CPU that the default pool has too |
| Surprises.DroppedPoolDeleted | cmd/cpu-pool-policy/pool/pool.go:263-281 | The same world later, which can be reached: a container took a share of the dropped pool, and any configuration tried next that does not name the pool is rejected and deletes it under the container, which the getters then cannot serve |
| Surprises.BusyPoolStays | cmd/cpu-pool-policy/pool/pool.go:386-395 | A concrete pool whose only user has all its CPUs exclusively, and a configuration without it that nothing else speaks against: there is an outcome, and every outcome rejects it and leaves pools, containers and settings alone |
| Surprises.LostCpu | cmd/cpu-pool-policy/pool/pool.go:532-566 | A concrete world in which a request for two exclusive CPUs always succeeds without giving any, and the pool loses its only usable CPU |
| Surprises.SiblingOfCpu0 | cmd/cpu-pool-policy/pool/pool.go:469-482 | A concrete configuration that every outcome, of which there is one, accepts, and whose HT-free pool is not HT-free, because its sibling is CPU 0 |
| Surprises.KeptOffline | cmd/cpu-pool-policy/pool/pool.go:415-482 | A concrete world and an acceptable gentle configuration: there is an outcome, and every outcome leaves a container both its exclusive CPUs, one of which is then offline as a sibling of an HT-free pool |
| Policy.PoolPolicy.AddContainer | cmd/cpu-pool-policy/pool-policy-plugin.go:150-185 | A known container changes nothing; otherwise exclusive CPUs are given exactly to whole-CPU requests equal to their limit, a share to all others, and success is published |
| Policy.PoolPolicy.RemoveContainer | cmd/cpu-pool-policy/pool-policy-plugin.go:188-196 | The container is released, the pending configuration retried, and the new state published without the container |
| Policy.PoolPolicy.RestoreState | cmd/cpu-pool-policy/pool-policy-plugin.go:199-218 | Exactly the restored containers the CPU manager knows remain, each with its pool, request and number of exclusive CPUs, whatever pending configuration the releases take in use |
| Policy.PoolPolicy.UpdateState | cmd/cpu-pool-policy/pool-policy-plugin.go:227-256 | Every container is published with its exclusive CPUs or the shared ones of its pool, the default set with the shared CPUs of the reserved and the default pool, every pool with 1000 for each of its CPUs, nobody else is touched, exactly what that changes is marked as updated, and the pool set is left alone |
| Policy.PoolPolicy.Configure | cmd/cpu-pool-policy/pool-policy-plugin.go:259-284 | A file with an unacceptable entry changes nothing; any other is tried as pending configuration without publishing |
| Policy.SteadyIsServiceable | cmd/cpu-pool-policy/pool/pool.go:671-700 | In steady states no getter meets a missing pool |
| Policy.DroppedPoolIsLost | cmd/cpu-pool-policy/pool/pool.go:263-281 | A pool in use that the current configuration does not name is deleted, under its containers, by the rollback of any configuration that does not name it either, and every such configuration is rejected |
| Policy.ReleasedHas | cmd/cpu-pool-policy/pool/pool.go:596-623 | The reserved and the default pool survive every release, even with a configuration pending that does not name them |
| Policy.ManagerState.GetCPUSet | vendor/k8s.io/kubernetes/pkg/kubelet/cm/cpumanager/stub/state.go:96-99 | A container's published CPUs, if there are any |
| Policy.ManagerState.SetCPUSet | vendor/k8s.io/kubernetes/pkg/kubelet/cm/cpumanager/stub/state.go:134-143 | One container's published CPUs are replaced and nothing else; it is marked exactly if they differ |
| Policy.ManagerState.SetDefaultCPUSet | vendor/k8s.io/kubernetes/pkg/kubelet/cm/cpumanager/stub/state.go:145-147 | The published default CPUs are replaced and nothing else |
| Policy.ManagerState.UpdateResource | vendor/k8s.io/kubernetes/pkg/kubelet/cm/cpumanager/stub/state.go:180-189 | One published capacity is replaced and nothing else; it is marked exactly if it differs |
| Policy.ManagerState.Delete | vendor/k8s.io/kubernetes/pkg/kubelet/cm/cpumanager/stub/state.go:149-156 | One container's published CPUs are forgotten and nothing else; it is marked exactly if it was known |
| Preparation.PreparationMeans | cmd/cpu-pool-policy/pool/pool.go:284-398 | Whenever the order does not matter, the verdict on a configuration in every iteration order is that of one declarative predicate, and on acceptance the CPU sets and the offlined CPUs are the same |
| Preparation.AcceptsMeans | cmd/cpu-pool-policy/pool/pool.go:284-398 | In a given iteration order a configuration is accepted if and only if its reserved pool can be set up, its pools fit, its claims follow that order and can be met, and it drops no pool in use |
| Preparation.NoneOverlookedAgrees | cmd/cpu-pool-policy/pool/pool.go:302-313 | The order never matters unless a pool named "" claims leftovers |
| Preparation.VerdictDependsOnOrder | cmd/cpu-pool-policy/pool/pool.go:284-398 | The verdict of prepareConfig depends on the iteration order if and only if a claimant named "" competes with a single other claimant of its isolation class and nothing else speaks against the configuration |
| Preparation.ScanMeans | cmd/cpu-pool-policy/pool/pool.go:302-357 | The order-by-order scan accepts exactly the configurations whose pools fit together and whose claims follow that order, and leaves unclaimed exactly what no pool names or puts offline |
| Preparation.StepMeans | cmd/cpu-pool-policy/pool/pool.go:316-341 | One pool passes the scan if and only if it fits with the pools before it |
| Preparation.RejectedOnTheWay | cmd/cpu-pool-policy/pool/pool.go:302-341 | A pool rejected on the way rejects the configuration, whatever order the rest would have had |
| Preparation.ResolvedDisjoint | cmd/cpu-pool-policy/pool/pool.go:284-384 | The CPU sets of an accepted configuration and its offlined CPUs are pairwise disjoint, and each pool stays in its isolation class |
| Preparation.ResolvedCovers | cmd/cpu-pool-policy/pool/pool.go:359-384 | With a claimant of the leftovers that are not isolated, the pools that are not isolated and the offlined CPUs make up exactly all CPUs that are not isolated |
| Preparation.FirstCpusShape | cmd/cpu-pool-policy/pool/pool.go:218-260 | Reserved CPUs include CPU 0 if there are any, and at most one core is reserved in part |
| Preparation.DownClosedIsFirst | cmd/cpu-pool-policy/pool/pool.go:227-250 | A set of CPUs that contains all earlier ones with every CPU is the set of the first so many |
| Preparation.CoresAreFirst | cmd/cpu-pool-policy/pool/pool.go:233-250 | Whole cores in id order and the first threads of the next one are the first CPUs in reservation order |
| Preparation.OfflinedFor | cmd/cpu-pool-policy/pool/pool.go:205-215 | Every offlined CPU is a sibling of a CPU of some HT-free pool |
| Preparation.OffliningKeepsCores | cmd/cpu-pool-policy/pool/pool.go:331-341 | Offlining siblings never leaves a core without an online thread |
| Preparation.ReservedKeepsCpu0 | cmd/cpu-pool-policy/pool/pool.go:218-260 | CPU 0 is not offlined when the reserved pool is not empty |
| Preparation.OffliningMeans | cmd/cpu-pool-policy/pool/pool.go:469-482 | HT-free pools are HT-free afterwards if and only if CPU 0 is no sibling of theirs |
| Reconciliation.RollbackIsExactIff | cmd/cpu-pool-policy/pool/pool.go:263-281 | A rejected configuration leaves all pools exactly as they were if and only if every pool belongs to the current configuration |
| Reconciliation.RollbackKeepsPoolsIff | cmd/cpu-pool-policy/pool/pool.go:263-281 | A rejected configuration leaves every container as it was, and the pool of a container if and only if the current configuration names it |
| Reconciliation.RejectedKeeps | cmd/cpu-pool-policy/pool/pool.go:401-413 | In a steady state a rejected configuration changes nothing but what is pending and the computed offlined CPUs |
| Reconciliation.RetryIsTheSame | cmd/cpu-pool-policy/pool/pool.go:401-413 | Trying the kept configuration again gives the verdict and the CPU sets the original would get |
| Reconciliation.ApartIff | cmd/cpu-pool-policy/pool/pool.go:415-466 | Whether or not it names every pool, an accepted configuration that leaves each pool enough CPUs for its pinned ones ends with disjoint pools if and only if no pool's pinned CPUs go to another pool and nobody gets what a dropped pool keeps |
| Reconciliation.ReallocatesKeepFootprints | cmd/cpu-pool-policy/pool/pool.go:446-466 | Reallocation keeps the CPUs of every pool, in any order of containers and even where pools overlap, as long as each pool has enough usable CPUs for its containers or a single one has them all; otherwise an allocation can drain the pool |
| Reconciliation.AcceptedMeans | cmd/cpu-pool-policy/pool/pool.go:401-443 | The configuration in use afterwards is the one no iteration order influences |
| Reconciliation.AcceptedReallocates | cmd/cpu-pool-policy/pool/pool.go:416-466 | Taking an accepted gentle configuration in use cannot run out of CPUs: every container keeps its pool, request and number of exclusive CPUs, every pool its configured and pinned CPUs |
| Reconciliation.ActivatedCanReallocate | cmd/cpu-pool-policy/pool/pool.go:446-466 | A pool's total exclusive demand equals its old pinned size, which its activated CPUs can serve: enough of them are usable, or a single container wants them all |
| Reconciliation.ReallocatesMeans | cmd/cpu-pool-policy/pool/pool.go:446-466 | Whenever every pool's usable CPUs cover what it had pinned, or a single container pinned all CPUs of the pool, in any order of containers no allocation fails and every container ends with as many exclusive CPUs of its pool as before, pairwise disjoint and together exactly the pinned ones |
| Reconciliation.ReallocatingStep | cmd/cpu-pool-policy/pool/pool.go:455-463 | Each container in turn gets as many exclusive CPUs of its pool again, and enough remain for those still to come |
| Reconciliation.AcceptedKeeps | cmd/cpu-pool-policy/pool/pool.go:401-443 | After an accepted gentle configuration the state is consistent, whatever it was configured as before |
| Outcomes.ReconciledExists | cmd/cpu-pool-policy/pool/pool.go:401-443 | Whatever is pending, and in whatever order its pools are visited, there is an outcome |
| Outcomes.ReallocatesGives | cmd/cpu-pool-policy/pool/pool.go:446-466 | Reallocation, in whatever order, gives a container only CPUs that it can get when the containers of its pool are served one after the other in some order |
| Outcomes.ReallocatesGiving | cmd/cpu-pool-policy/pool/pool.go:446-466 | Conversely, each CPU that a container can get in that way it gets in some reallocation of all pools |
| Outcomes.ReallocatesAvoids | cmd/cpu-pool-policy/pool/pool.go:446-466 | If a reallocation gives no container a CPU that this one is to avoid, each pool by itself can serve its containers in that way, in some order |
| Outcomes.ReallocatesAvoiding | cmd/cpu-pool-policy/pool/pool.go:446-466 | Conversely, if each pool by itself can, some reallocation of all pools does |
| Reconciliation.PartitionAfter | cmd/cpu-pool-policy/pool/pool.go:415-431 | If a pool keeps its pinned CPUs, its shared and pinned CPUs are disjoint and together exactly the configured ones |
| PoolState.Isolation | cmd/cpu-pool-policy/pool/pool.go:650-700 | In a consistent state exclusive CPUs are in no other container's set and not in the default set |
| PoolState.UsageIsRequests | cmd/cpu-pool-policy/pool/pool.go:743-747 | The usage of a pool is the sum of the requests of all its containers, exclusive or not |
| PoolState.TookCpusKeeps | cmd/cpu-pool-policy/pool/pool.go:532-566 | Exclusive allocation keeps the state consistent, whatever the allocator returns |
| PoolState.TookShareKeeps | cmd/cpu-pool-policy/pool/pool.go:569-593 | Shared allocation keeps the state consistent |
| PoolState.CapacityKeptIff | cmd/cpu-pool-policy/pool/pool.go:532-566 | Exclusive allocation keeps its pool's capacity if and only if it asks for all shared CPUs, or for no more than the allocator can use, or none is usable |
| PoolState.ReleasedKeeps | cmd/cpu-pool-policy/pool/pool.go:596-621 | Releasing a container keeps the state consistent |
| PoolState.ReleasedCapacity | cmd/cpu-pool-policy/pool/pool.go:596-621 | Releasing keeps the CPUs and the capacity of every pool |
| Pools.PoolSet.constructor | cmd/cpu-pool-policy/pool/pool.go:158-178 | An empty pool set over discovered systems |
| Pools.PoolSet.AllocateCPU | cmd/cpu-pool-policy/pool/pool.go:569-593 | A share of a pool: an unusable pool gives nothing without an error, a missing one is an error, any other is charged the request |
| Pools.PoolSet.TakeCPUs | cmd/cpu-pool-policy/pool/pool.go:514-521 | The allocator's result moves from the shared to the pinned CPUs, and whatever it leaves is what stays shared |
| Pools.PoolSet.AllocateCPUs | cmd/cpu-pool-policy/pool/pool.go:532-566 | Exclusive CPUs out of the shared ones, recorded with what was really given; the reserved pool only shares |
| Pools.PoolSet.PrepareReservedPool | cmd/cpu-pool-policy/pool/pool.go:218-260 | Explicit CPUs are kept and accepted if and only if CPU 0 is among them; a count is served if and only if there are as many CPUs, with exactly that many first ones; no other pool and no other setting changes |
| Pools.PoolSet.PickReserved | cmd/cpu-pool-policy/pool/pool.go:227-256 | Picking succeeds if and only if the count does not exceed the number of CPUs, and yields exactly the first so many in reservation order |
| Pools.PoolSet.HtSiblingCPUSet | cmd/cpu-pool-policy/pool/pool.go:205-215 | All siblings of the given CPUs |
| Pools.PoolSet.CheckPool | cmd/cpu-pool-policy/pool/pool.go:302-341 | One step of the scan |
| Pools.PoolSet.ScanPools | cmd/cpu-pool-policy/pool/pool.go:302-355 | The scan in some iteration order; on rejection only configurations of pools have changed |
| Pools.PoolSet.ClaimLeftovers | cmd/cpu-pool-policy/pool/pool.go:359-384 | Every claimant gets what is left of its class, if and only if something is left for each |
| Pools.PoolSet.DropsBusyPool | cmd/cpu-pool-policy/pool/pool.go:387-395 | Finds a pool if and only if one that the configuration does not name has a use other than 0 or a pinned CPU |
| Pools.PoolSet.PrepareConfig | cmd/cpu-pool-policy/pool/pool.go:284-398 | Accepts if and only if the model of the scan does; on rejection old pools keep everything but their configuration |
| Pools.PoolSet.RestoreConfig | cmd/cpu-pool-policy/pool/pool.go:263-281 | Pools of the current configuration carry it again and all others are gone |
| Pools.PoolSet.Activate | cmd/cpu-pool-policy/pool/pool.go:415-431 | Every pool shares its configured CPUs that are not pinned; pools without a configuration are gone |
| Pools.PoolSet.ResetPools | cmd/cpu-pool-policy/pool/pool.go:447-452 | All pinned CPUs of every pool are shared again |
| Pools.PoolSet.UpdateAllocations | cmd/cpu-pool-policy/pool/pool.go:446-466 | All exclusive CPUs are given up, then the containers, in some order, are allocated as many of their pool as they had, up to the first allocation that fails; it succeeds if and only if all had their turn |
| Pools.PoolSet.UpdateCpuOnlineState | cmd/cpu-pool-policy/pool/pool.go:469-482 | Everything is online but the offlined CPUs, and CPU 0 is as it was |
| Pools.PoolSet.UpdatePoolMetrics | cmd/cpu-pool-policy/pool/pool.go:716-774 | A pool other than "reserved" and "" is reported with its shared and pinned CPUs, 1000 for each as capacity, and 1000 for each pinned one and its use as usage; no other entry changes |
| Pools.PoolSet.UpdateMetrics | cmd/cpu-pool-policy/pool/pool.go:777-783 | Exactly the pools other than "reserved" and "" are reported, each with its shared and pinned CPUs, capacity and usage as they are |
| Pools.PoolSet.ReconcileConfig | cmd/cpu-pool-policy/pool/pool.go:401-443 | The pending configuration is accepted and taken in use, or rejected and rolled back |
| Pools.PoolSet.Reconfigure | cmd/cpu-pool-policy/pool/pool.go:194-202 | No configuration changes nothing; any other becomes pending and is tried |
| Pools.PoolSet.GiveBack | cmd/cpu-pool-policy/pool/pool.go:596-621 | The container's CPUs or share go back to its pool, and the cache follows |
| Pools.PoolSet.ReleaseCPU | cmd/cpu-pool-policy/pool/pool.go:596-623 | Unknown containers change nothing, those of missing pools are forgotten, others are given back and the pending configuration is tried |
| Pools.PoolSet.GetPoolCapacity | cmd/cpu-pool-policy/pool/pool.go:626-636 | Every pool with 1000 for each of its shared and pinned CPUs |
| Pools.PoolSet.GetPoolAssignments | cmd/cpu-pool-policy/pool/pool.go:650-666 | Each container with its exclusive CPUs; or, if shared ones are wanted too, any other one with the shared CPUs of its pool, where the reserved and the default pool share theirs |
| Pools.PoolSet.GetContainerCPUSet | cmd/cpu-pool-policy/pool/pool.go:671-687 | The exclusive CPUs of a container, or the shared ones of its pool, where the reserved and the default pool share theirs |
| Pools.PoolSet.GetPoolCPUSet | cmd/cpu-pool-policy/pool/pool.go:690-700 | The shared CPUs of a pool, where the reserved and the default pool share theirs, and none of an unknown pool |
| NodeConfigs.Configure | cmd/cpu-pool-policy/pool/config.go:189-241 | An entry is accepted if and only if its texts parse, a wildcard is not HT-free, and explicit CPUs are as isolated as it says; then exactly its pool is configured, with both flags and explicit CPUs as written, leftovers for the wildcard, and else the number as written |
| NodeConfigs.ParseRequiringExplicitCpus | cmd/cpu-pool-policy/pool/config.go:131-163 | In any order of entries a file is accepted if and only if all its entries are, of which only the reserved one may leave its CPUs open and those of the reserved and the default pool are neither isolated nor HT-free; then every entry is configured as written, and the required pools that it does not name by default |
| NodeConfigs.ParsedIsReady | cmd/cpu-pool-policy/pool/config.go:131-163 | A parsed file has reserved and default pools that are neither isolated nor HT-free, CPUs or a claim for every other pool, no HT-free claimant and consistent isolation; it meets what preparing needs if and only if its reserved pool is given CPUs or a count |
| PoolMetrics.Metrics.UpdatePool | cmd/cpu-pool-policy/metrics/metrics.go:71-84 | One entry of the cache is replaced |
| PoolMetrics.Metrics.DeletePool | cmd/cpu-pool-policy/metrics/metrics.go:87-95 | One entry of the cache is dropped |
| PoolMetrics.Metrics.DeleteAllPools | cmd/cpu-pool-policy/metrics/metrics.go:98-100 | The cache is emptied |
| AllocSpec.ExactWhenEnough | pkg/cpuallocator/allocator.go:313-356 | The result has the requested size and partitions the source with the rest if and only if all CPUs or at most the usable ones are requested |
| AllocSpec.RestKeptIff | pkg/cpuallocator/allocator.go:313-356 | No CPU is lost if and only if, in addition, or else no CPU is usable |
| AllocSpec.ResultsApart | pkg/cpuallocator/allocator.go:338-356 | In every case the result and the rest are separate parts of the source |
| AllocSpec.ShortcutAgrees | pkg/cpuallocator/allocator.go:338-346 | Asking for all of a fully usable set gives the same with and without the shortcut |
| AllocSpec.CoreAligned | pkg/cpuallocator/allocator.go:170-243 | Before single threads are taken every core is taken with all its online threads or not at all |
| AllocSpec.SplitOnlyForTheRest | pkg/cpuallocator/allocator.go:246-310 | An idle core is split only when fewer threads are still wanted than it has online |
| AllocSpec.PhasesAreMaximal | pkg/cpuallocator/allocator.go:170-243 | After each of the first two phases, every idle package or core is larger than what remains of the request |
| AllocSpec.PackagesInOrder | pkg/cpuallocator/allocator.go:170-205 | A package whose online CPUs are all idle is taken as a whole if and only if it fits in what packages of lower ids leave of the request; any other package is not touched |
| AllocSpec.CoresInOrder | pkg/cpuallocator/allocator.go:208-243 | A core whose online threads are all idle is then taken as a whole if and only if it fits in what the packages and the cores with lower online threads leave of the request; any other core is not touched |
| Choices.FirstFitIff | pkg/cpuallocator/allocator.go:170-243 | First fit, a property of the CPUs taken, has exactly one solution: what visiting the idle packages or cores in id order and taking each that still fits gives |
| Choices.PossibleMeans | pkg/cpuallocator/allocator.go:313-356 | The CPUs that occur in results of a request are exactly: all for a request for all, none if too few are usable, the whole packages and cores of the first two phases if those fill the request, and every usable one otherwise |
| Choices.AvoidableMeans | pkg/cpuallocator/allocator.go:313-356 | A request can be served without CPUs of a given set if and only if the first two phases take none of them and enough other usable ones remain, or, for a request for all, none of them is there |
| AllocSpec.IdleUnitsAreTooLarge | pkg/cpuallocator/allocator.go:190-205 | First fit leaves no idle unit that would still fit |
| Allocator.SysfsSingleton.PackageCPUSet | pkg/cpuallocator/allocator.go:95-103 | The cached answer is the direct one, after any sequence of lookups |
| Allocator.SysfsSingleton.CoreCPUSet | pkg/cpuallocator/allocator.go:117-127 | The same for cores, although one lookup answers for all siblings |
| Allocator.CpuAllocator.PickIdlePackages | pkg/cpuallocator/allocator.go:176-188 | Exactly the packages whose online CPUs are all available, by increasing id |
| Allocator.CpuAllocator.TakeIdlePackages | pkg/cpuallocator/allocator.go:170-205 | First fit over packages |
| Allocator.CpuAllocator.PickIdleCores | pkg/cpuallocator/allocator.go:214-226 | The first online thread of exactly the cores whose online threads are all available, by increasing id |
| Allocator.CpuAllocator.TakeIdleCores | pkg/cpuallocator/allocator.go:208-243 | First fit over cores |
| Allocator.CpuAllocator.TakeIdleThreads | pkg/cpuallocator/allocator.go:246-310 | The request is filled if the usable threads suffice, else all of them are taken |
| Allocator.CpuAllocator.Allocate | pkg/cpuallocator/allocator.go:313-336 | Three phases fill the request, or the source is drained of its usable CPUs and nothing is returned |
| Allocator.AllocateCpus | pkg/cpuallocator/allocator.go:338-356 | Too large requests fail without effect, exact ones take everything, all others go through the phases |
| Allocator.ReleaseCpus | pkg/cpuallocator/allocator.go:370-385 | All but the given number of CPUs are taken, the released ones stay in the source |
| Sysfs.System.Discover | pkg/sysfs/system.go:141-163 | Discovery finds the topology, agrees with the kernel about offline CPUs, and leaves every CPU as it was |
| Sysfs.System.SetCpusOnline | pkg/sysfs/system.go:166-208 | Exactly the positive ids that differed change, in the kernel and in the bookkeeping, which stays in agreement; all given ids but 0 are then as wanted and all others as before |
| Sysfs.System.DiscoverCpus | pkg/sysfs/system.go:357-378 | Every CPU is brought online, read and put back, for any order of entries |
| Sysfs.System.DiscoverPackages | pkg/sysfs/system.go:543-565 | Packages partition the CPUs by the package they report |
| Sysfs.SwitchKeepsSync | pkg/sysfs/system.go:166-208 | Bookkeeping that agreed with the kernel agrees again after a switch |
| Sysfs.EntryId | pkg/sysfs/system.go:172-204 | The id read back from the path of a CPU is the id of that CPU |
| Sysfs.Kernel.WriteOnline | pkg/sysfs/utils.go:89-133 | An online file takes the new value and gives back the old one |
| IdText.ParseValueList | pkg/sysfs/utils.go:185-225 | Fails if and only if some entry is malformed, else returns the union of all single ids and inclusive ranges |
| IdText.RangeMeans | pkg/sysfs/utils.go:185-225 | A printed range of two ids up to the largest 64-bit one parses to all ids from the first to the second |
| IdText.ListExamples | pkg/sysfs/utils.go:185-225 | Concrete texts: 10-12, 10-12-9 whose third bound is ignored, a word that fails, +5, and what 10 and the set of 3 and 10 print as |
| IdText.ListRoundTrip | pkg/sysfs/idset.go:134-155 | Printing and parsing back is the identity exactly on the non-empty sets of non-negative ids, for both separators |
| IdText.StringWithSeparator | pkg/sysfs/idset.go:134-155 | The sorted decimal ids joined by the separator |
| IdText.GetEnumeratedId | pkg/sysfs/utils.go:28-47 | The trailing number of a path, or -1 if there is none after the first character |
| IdText.PathRoundTrip | pkg/sysfs/utils.go:28-47 | The number read from a path ending in a decimal id is that id |
| CpuSets.SortedSlice | pkg/sysfs/idset.go:106-112 | Exactly the members, each once, in increasing order |

## Left out

- Pools.PoolSet.ReconcileConfig: after a rejection, the field of CPUs to take offline, which nothing reads before it is computed again, and the CPUs found for leftover claimants of the pending configuration are left open.
- Pools.PoolSet.RestoreConfig: when a pool of the current configuration is missing, says only that restoring fails; the code then returns with some configurations restored.
- Allocator.CpuAllocator.TakeIdleThreads: the preference among threads is left open, any order is allowed, since the original's comparison is no strict weak order.
- Sysfs.System.SetCpusOnline: every write to an online file succeeds and ids without a file are not passed in; the error paths of sysfs are not modelled.
- Sysfs.System.DiscoverCpus: the topology files are a given map instead of files found by name, and CPU frequencies are not read.
- Sysfs.System.Discover: nodes and caches are not discovered, and the flags that skip parts of discovery are not modelled.
- IdText.GetEnumeratedId: numbers are unbounded, so a path with more digits than a 64-bit int holds gives its true value instead of a wrapped one.
- IdText.ParseValueList: only the id set form of the list; numbers are unbounded, whereas the original's loop over a range that ends at the largest 64-bit int does not end; ids printed back are assumed to fit 64 bits in the round trip.
- NodeConfigs.Configure: CPU set and frequency texts are given by what parsing them yields; the parser of CPU set texts belongs to another library.
- Policy.PoolPolicy.RestoreState: the checkpoint is given as a restored pool set that is steady (its metrics need not be up to date), and a configuration pending in it has to be gentle; its JSON form and the check of the isolated CPUs are not modelled.
- Policy.PoolPolicy.Configure: the file is given by its entries; picking and watching files is not modelled.
- Policy.PoolPolicy.UpdateState: the checkpoint entry with the JSON form of the pools is not written.
- Policy.PoolPolicy.AddContainer: pool, request and limit are given, not read from the pod and container records.
- Pools.PoolSet.GetPoolCapacity: capacities are keyed by pool name instead of by extended resource name.
- Pools.PoolSet.constructor: creates the set without a first configuration, as the policy does.
- Configurations, containers, CPUs and packages are values in maps, so a configuration object shared between the pending and the current configuration, or between a configuration and a pool, is not modelled as shared.
- Reconciliation.ActivatedCanReallocate: the condition is sufficient, and where no two containers have exclusive CPUs of one pool it leaves out nothing; when several containers together pin all CPUs of a pool, some of them not usable, reallocation can still succeed in every order, which it does not cover, since releasing one of those containers would undo it.
- The lock around the operations: they are atomic steps.
- Integer overflow of milliCPU sums.
- CPU frequency limits, the remaining hardware updates after the online states, logging and text dumps.
- Publishing metrics to the API server, fetching them at start, and the generated client code.
- The admission webhook, and the parser that also allows CPU counts, which is not on the live path.
- Composition of the start-up steps (validate, create, restore, configure, publish): each step is modelled by itself, and StartsWell covers a first start from configuration file to publication.
