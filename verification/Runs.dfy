/** Runs of the policy: containers come and go, configurations are tried, and what holds in every state on the way. */
module Runs {
  import opened CpuSets
  import opened Topology
  import opened NodeConfigs
  import opened Preparation
  import opened PoolMetrics
  import opened PoolState
  import opened Reconciliation
  import opened Outcomes
  import AllocSpec

  /** What the CPU manager was told: the CPUs of containers, the default CPUs, and the capacity of pools. */
  datatype Published = Published(assignments: map<string, CPUSet>, defaultCpus: CPUSet, capacity: map<string, int>)

  /** The pool set and what was last published about it. */
  datatype World = World(s: State, pub: Published)

  datatype Event =
    | Add(id: string, pool: string, req: int, lim: int)
    | Remove(id: string)
    | Configure(cfg: NodeConfig)

  /** updateState */
  ghost function Publish(pub: Published, s: State): Published
    requires RESERVED in s.pools && DEFAULT in s.pools
  {
    Published(pub.assignments + Assignments(s), PoolCpuSet(s, DEFAULT), pub.capacity + Capacities(s))
  }

  /** A container asks for exclusive CPUs by requesting whole CPUs and limiting itself to them. */
  predicate AsksExclusive(req: int, lim: int) {
    req != 0 && req == lim && req % 1000 == 0
  }

  /** The allocation a container is given. */
  ghost predicate Took(e: Env, s: State, id: string, pool: string, req: int, lim: int, s': State, ok: bool)
    requires ValidEnv(e)
  {
    if AsksExclusive(req, lim) then exists result :: TookCpus(e, s, id, pool, req / 1000, s', ok, result)
    else exists result :: TookShare(s, id, pool, req, s', ok, result)
  }

  ghost predicate Step(e: Env, w: World, ev: Event, w': World)
    requires ValidEnv(e)
  {
    match ev
    case Add(id, pool, req, lim) => Added(e, w, id, pool, req, lim, w')
    case Remove(id) => Removed(e, w, id, w')
    case Configure(cfg) => Tried(e, w, cfg, w')
  }

  /** AddContainer: nothing happens to a known container; on success the new state is published. */
  ghost predicate Added(e: Env, w: World, id: string, pool: string, req: int, lim: int, w': World)
    requires ValidEnv(e)
  {
    if id in w.s.containers then w' == w
    else exists ok ::
      && Took(e, w.s, id, pool, req, lim, w'.s, ok)
      && if ok then RESERVED in w'.s.pools && DEFAULT in w'.s.pools && w'.pub == Publish(w.pub, w'.s)
         else w'.pub == w.pub
  }

  /** RemoveContainer */
  ghost predicate Removed(e: Env, w: World, id: string, w': World)
    requires ValidEnv(e)
  {
    && (exists order, ok :: ReleasedTo(e, w.s, id, order, w'.s, ok))
    && RESERVED in w'.s.pools && DEFAULT in w'.s.pools
    && w'.pub == Publish(w.pub.(assignments := w.pub.assignments - {id}), w'.s)
  }

  /** configure: a new configuration is tried at once, and nothing is published. */
  ghost predicate Tried(e: Env, w: World, cfg: NodeConfig, w': World)
    requires ValidEnv(e)
  {
    && w'.pub == w.pub
    && exists order, ok :: Reconciled(e, w.s.(pendingCfg := Some(cfg)), order, w'.s, ok)
  }

  // What holds in every state

  /** Everything there is to publish about a state. */
  ghost function Snapshot(s: State): Published
    requires RESERVED in s.pools && DEFAULT in s.pools
  {
    Published(Assignments(s), PoolCpuSet(s, DEFAULT), Capacities(s))
  }

  /** The same containers, in the same pools, with as many exclusive CPUs each, though perhaps different ones. */
  ghost predicate Alike(cs: map<string, Container>, cs': map<string, Container>) {
    && cs.Keys == cs'.Keys
    && forall id :: id in cs ==> AlikeContainer(cs[id], cs'[id])
  }

  ghost predicate AlikeContainer(c: Container, c': Container) {
    c' == c.(cpus := c'.cpus) && |c'.cpus| == |c.cpus|
  }

  ghost predicate IsSnapshot(pub: Published, s: State, t: State) {
    Consistent(t) && Alike(t.containers, s.containers) && t.pools.Keys <= s.pools.Keys && pub == Snapshot(t)
  }

  /** What is published is a snapshot of a consistent state, with the same containers as now. */
  ghost predicate Faithful(pub: Published, s: State) {
    exists t :: IsSnapshot(pub, s, t)
  }

  /** The online CPUs are all but those offlined for the current configuration; every core has one; and with a
      non-empty reserved pool no CPU of an HT-free pool has an online sibling. */
  ghost predicate HardwareOk(e: Env, s: State) {
    && 0 in e.m.topo && 0 in s.online
    && s.online == e.m.topo.Keys - (ToOffline(e.m, s.currentCfg, s.currentCfg.Keys) - {0})
    && NoDeadCore(e.m.topo, e.m.topo.Keys - s.online)
    && (RESERVED in s.currentCfg && s.currentCfg[RESERVED].cpus != Some({}) ==>
          HtFree(e.m, s.currentCfg, e.m.topo.Keys - s.online))
  }

  ghost predicate WorldOk(e: Env, w: World) {
    Consistent(w.s) && HardwareOk(e, w.s) && Faithful(w.pub, w.s)
  }

  /** A configuration that can be tried in this state: if it is accepted it is gentle. */
  ghost predicate Mild(e: Env, s: State, cfg: NodeConfig)
    requires ValidEnv(e)
  {
    && Ready(cfg) && NoneOverlooked(cfg)
    && (Acceptable(e.m, Busy(s.pools), cfg) ==> Gentle(e, s, cfg))
  }

  /** The configurations an event makes the policy try are mild. */
  ghost predicate MildEvent(e: Env, s: State, ev: Event)
    requires ValidEnv(e)
  {
    match ev
    case Add(_, _, _, _) => true
    case Remove(id) =>
      id in s.containers && s.containers[id].pool in s.pools && s.pendingCfg.Some? ==>
        Mild(e, Released(s, id), s.pendingCfg.value)
    case Configure(cfg) => Mild(e, s, cfg)
  }

  // Hardware

  lemma OfflinedByCurrent(m: Machine, cfg: NodeConfig)
    requires ValidMachine(m) && WithReserved(m, cfg).Some?
    ensures ToOffline(m, Resolved(m, cfg), Resolved(m, cfg).Keys) == Offlined(m, cfg)
  {
    var cfg1 := WithReserved(m, cfg).value;
    SameScan(m, cfg1, ResolvedSetUp(m, cfg1));
  }

  /** A successful reconfiguration leaves the hardware as configured. */
  lemma AcceptedHardware(e: Env, s: State, cfg: NodeConfig, order: seq<string>, s': State)
    requires ValidEnv(e) && Sensible(cfg) && 0 in s.online && s.online <= e.m.topo.Keys
    requires IsOrder(order, cfg.Keys) && Accepts(e.m, Busy(s.pools), cfg, order) && Accepted(e, s, cfg, order, s')
    ensures HardwareOk(e, s')
  {
    AcceptedMeans(e, s, cfg, order, s');
    var m, busy := e.m, Busy(s.pools);
    OfflinedByCurrent(m, cfg);
    ResolvedIsFull(m, busy, cfg);
    ResolvedDisjoint(m, busy, cfg, RESERVED, RESERVED);
    OffliningKeepsCores(m, busy, cfg);
    OffliningMeans(m, busy, cfg);
    if Resolved(m, cfg)[RESERVED].cpus != Some({}) {
      ReservedKeepsCpu0(m, busy, cfg);
    }
    OnlineIs(m, s.online, Offlined(m, cfg));
    hide Acceptable, Resolved, Offlined, Accepted, Accepts, Gentle, FullConfig, HtFree, NoDeadCore, ToOffline,
        OnlineAfter, ValidTopology;
  }

  /** A successful reconfiguration leaves exactly the offlined CPUs offline, except that CPU 0 stays online;
      with a non-empty reserved pool there is no exception. */
  lemma ExactlyOfflined(e: Env, s: State, cfg: NodeConfig, order: seq<string>, s': State)
    requires ValidEnv(e) && Sensible(cfg) && 0 in s.online && s.online <= e.m.topo.Keys
    requires IsOrder(order, cfg.Keys) && Accepts(e.m, Busy(s.pools), cfg, order) && Accepted(e, s, cfg, order, s')
    ensures s'.online <= e.m.topo.Keys && e.m.topo.Keys - s'.online == s'.offlined - {0}
    ensures RESERVED in s'.currentCfg
    ensures s'.currentCfg[RESERVED].cpus != Some({}) ==> e.m.topo.Keys - s'.online == s'.offlined
  {
    hide *;
    var m, busy := e.m, Busy(s.pools);
    SensibleIs(e, cfg);
    AcceptedMeans(e, s, cfg, order, s');
    ActivationOnline(e, s, s');
    ResolvedIsFull(m, busy, cfg);
    ResolvedDisjoint(m, busy, cfg, RESERVED, RESERVED);
    InClass(m, Offlined(m, cfg));
    OnlineIs(m, s.online, s'.offlined);
    if s'.currentCfg[RESERVED].cpus != Some({}) {
      ReservedKeepsCpu0(m, busy, cfg);
      assert s'.offlined - {0} == s'.offlined;
    }
  }

  /** After an accepted gentle configuration every pool's CPUs are online exactly if no pool had pinned a CPU that the
      configuration takes offline; CPU 0 stays online. */
  lemma PoolsOnlineIff(e: Env, s: State, cfg: NodeConfig, order: seq<string>, s': State)
    requires ValidEnv(e) && Sound(s) && Gentle(e, s, cfg) && 0 in s.online && s.online <= e.m.topo.Keys
    requires forall p :: p in s.pools ==> s.pools[p].pinned <= e.m.topo.Keys
    requires IsOrder(order, cfg.Keys) && Accepts(e.m, Busy(s.pools), cfg, order) && Accepted(e, s, cfg, order, s')
    ensures (forall p :: p in s'.pools ==> Footprint(s'.pools[p]) <= s'.online) <==>
            (forall p :: p in s.pools ==> s.pools[p].pinned !! Offlined(e.m, cfg) - {0})
  {
    hide *;
    AcceptsSetUp(e, s, cfg, order);
    var pools := AcceptedReallocates(e, s, cfg, order, s');
    GentleIsSensible(e, s, cfg);
    SensibleIs(e, cfg);
    ExactlyOfflined(e, s, cfg, order, s');
    AcceptedMeans(e, s, cfg, order, s');
    FootprintsNow(e, s, s'.currentCfg, pools, s');
    forall p | p in s'.pools
      ensures NewCpus(s.pools, s'.currentCfg, p) <= e.m.topo.Keys && NewCpus(s.pools, s'.currentCfg, p) !! s'.offlined
    {
      ConfiguredOnline(e.m, Busy(s.pools), cfg, s.pools, p);
    }
    OnlineParts(e.m.topo.Keys, s'.online, s'.offlined - {0}, s.pools, s'.currentCfg, s'.pools);
  }

  lemma AcceptsSetUp(e: Env, s: State, cfg: NodeConfig, order: seq<string>)
    requires ValidEnv(e) && IsOrder(order, cfg.Keys) && Accepts(e.m, Busy(s.pools), cfg, order)
    ensures ValidMachine(e.m) && WithReserved(e.m, cfg).Some?
  {
  }

  lemma FootprintsNow(e: Env, s: State, cfg: NodeConfig, pools: map<string, PoolView>, s': State)
    requires FullConfig(cfg) && s.pools.Keys <= cfg.Keys && ActivatesTo(s.pools, cfg, pools)
    requires Reallocated(e, pools, s.containers, s'.pools, s'.containers)
    ensures s'.pools.Keys == cfg.Keys
    ensures forall p :: p in s'.pools ==> Footprint(s'.pools[p]) == NewCpus(s.pools, cfg, p) + PinnedOf(s.pools, p)
  {
    hide Footprint, NewCpus, NewConfig, PinnedOf, UsedOf, FullConfig, ContainersOk, Exclusive;
    forall p | p in s'.pools ensures Footprint(s'.pools[p]) == NewCpus(s.pools, cfg, p) + PinnedOf(s.pools, p) {
      ActivatedFootprint(s.pools, cfg, pools, p);
      assert ReallocatedPool(e, pools[p], s'.pools[p], Exclusive(s'.containers, p));
    }
  }

  /** Configured CPUs exist and are not taken offline. */
  lemma ConfiguredOnline(m: Machine, busy: set<string>, cfg: NodeConfig, pools: map<string, PoolView>, p: string)
    requires ValidMachine(m) && Ready(cfg) && NoneOverlooked(cfg) && Acceptable(m, busy, cfg)
    requires Resolved(m, cfg).Keys == cfg.Keys && p in Resolved(m, cfg)
    ensures NewCpus(pools, Resolved(m, cfg), p) <= m.topo.Keys
    ensures NewCpus(pools, Resolved(m, cfg), p) !! Offlined(m, cfg)
  {
    ResolvedDisjoint(m, busy, cfg, p, p);
    hide Acceptable, Offlined, ValidMachine, Ready;
  }

  /** The online CPUs are all but the given offline ones, and pools have CPUs that are online and CPUs they pinned
      before. */
  lemma OnlineParts(all: CPUSet, online: CPUSet, offline: CPUSet, pools: map<string, PoolView>, cfg: NodeConfig,
                    pools': map<string, PoolView>)
    requires online <= all && all - online == offline && pools.Keys <= pools'.Keys
    requires forall p :: p in pools ==> pools[p].pinned <= all
    requires forall p :: p in pools' ==> NewCpus(pools, cfg, p) <= all && NewCpus(pools, cfg, p) !! offline
    requires forall p :: p in pools' ==> Footprint(pools'[p]) == NewCpus(pools, cfg, p) + PinnedOf(pools, p)
    ensures (forall p :: p in pools' ==> Footprint(pools'[p]) <= online) <==>
            (forall p :: p in pools ==> pools[p].pinned !! offline)
  {
    hide NewCpus, Footprint;
    if forall p :: p in pools' ==> Footprint(pools'[p]) <= online {
      forall p, c | p in pools && c in pools[p].pinned ensures c !in offline {
        assert c in Footprint(pools'[p]);
      }
    }
  }

  lemma SensibleIs(e: Env, cfg: NodeConfig)
    requires ValidEnv(e) && Sensible(cfg)
    ensures ValidMachine(e.m) && 0 in e.m.topo && Ready(cfg) && NoneOverlooked(cfg)
    ensures RESERVED in cfg ==> !Claims(cfg[RESERVED]) && !Overlooked(cfg, RESERVED)
  {
  }

  lemma ActivationOnline(e: Env, s: State, s': State)
    requires ValidEnv(e) && Activation(e, s, s')
    ensures s'.online == OnlineAfter(e.m, s.online, s'.offlined)
  {
  }

  lemma InClass(m: Machine, cpus: CPUSet)
    requires cpus <= Class(m, false)
    ensures cpus <= m.topo.Keys
  {
  }

  lemma OnlineIs(m: Machine, online: CPUSet, offlined: CPUSet)
    requires 0 in online && online <= m.topo.Keys && 0 in m.topo && offlined <= m.topo.Keys
    ensures OnlineAfter(m, online, offlined) == m.topo.Keys - (offlined - {0})
    ensures m.topo.Keys - OnlineAfter(m, online, offlined) == offlined - {0}
  {
  }

  // Steps

  /** A state and a later one: nothing was lost on the way. */
  ghost predicate Continues(s: State, s': State) {
    Steady(s') && Alike(s.containers, s'.containers) && s.pools.Keys <= s'.pools.Keys
  }

  /** Trying the pending configuration, if it is mild, keeps everything in order, whatever comes of it. */
  lemma ReconciledKeeps(e: Env, s: State, order: seq<string>, s': State, ok: bool)
    requires ValidEnv(e) && Steady(s)
    requires s.pendingCfg.Some? ==> Mild(e, s, s.pendingCfg.value)
    requires Reconciled(e, s, order, s', ok)
    ensures Continues(s, s') && (Consistent(s) ==> Consistent(s'))
    ensures HardwareOk(e, s) ==> HardwareOk(e, s')
  {
    if s.pendingCfg.Some? {
      var cfg := s.pendingCfg.value;
      var accepts := ReconciledAs(e, s, order, s', ok);
      hide *;
      if accepts {
        SteadyIsSound(s);
        MildAccepted(e, s, cfg, order);
        AcceptedContinues(e, s, cfg, order, s');
      } else {
        RejectedKeeps(e, s, cfg, s');
        RejectedContinues(e, s, s');
      }
    }
  }

  lemma ReconciledAs(e: Env, s: State, order: seq<string>, s': State, ok: bool) returns (accepts: bool)
    requires ValidEnv(e) && s.pendingCfg.Some? && Reconciled(e, s, order, s', ok)
    ensures accepts == ok
    ensures IsOrder(order, s.pendingCfg.value.Keys)
    ensures accepts ==>
              Accepts(e.m, Busy(s.pools), s.pendingCfg.value, order) && Accepted(e, s, s.pendingCfg.value, order, s')
    ensures !accepts ==>
              !Accepts(e.m, Busy(s.pools), s.pendingCfg.value, order) && Rejected(e, s, s.pendingCfg.value, s')
  {
    accepts := ok;
  }

  lemma SteadyIsSound(s: State)
    requires Steady(s)
    ensures Sound(s)
  {
  }

  lemma MildAccepted(e: Env, s: State, cfg: NodeConfig, order: seq<string>)
    requires ValidEnv(e) && Mild(e, s, cfg) && IsOrder(order, cfg.Keys) && Accepts(e.m, Busy(s.pools), cfg, order)
    ensures Gentle(e, s, cfg)
  {
    NoneOverlookedAgrees(e.m, Busy(s.pools), cfg);
    PreparationMeans(e.m, Busy(s.pools), cfg, order);
  }

  lemma RejectedContinues(e: Env, s: State, s': State)
    requires Steady(s') && s' == s.(pendingCfg := s'.pendingCfg, offlined := s'.offlined)
    ensures Continues(s, s')
    ensures HardwareOk(e, s) ==> HardwareOk(e, s')
  {
  }

  lemma AcceptedContinues(e: Env, s: State, cfg: NodeConfig, order: seq<string>, s': State)
    requires ValidEnv(e) && Sound(s) && Gentle(e, s, cfg)
    requires IsOrder(order, cfg.Keys) && Accepts(e.m, Busy(s.pools), cfg, order) && Accepted(e, s, cfg, order, s')
    ensures Continues(s, s') && Consistent(s')
    ensures HardwareOk(e, s) ==> HardwareOk(e, s')
  {
    hide *;
    AcceptedKeeps(e, s, cfg, order, s');
    ConsistentIsSteady(s');
    var pools := AcceptedReallocates(e, s, cfg, order, s');
    ReallocatedAlike(e, s, s'.currentCfg, pools, s');
    ContinuesIs(s, s');
    if HardwareOk(e, s) {
      OnlineExist(e, s);
      GentleIsSensible(e, s, cfg);
      AcceptedHardware(e, s, cfg, order, s');
    }
  }

  lemma GentleIsSensible(e: Env, s: State, cfg: NodeConfig)
    requires ValidEnv(e) && Gentle(e, s, cfg)
    ensures Sensible(cfg)
  {
  }

  lemma OnlineExist(e: Env, s: State)
    requires HardwareOk(e, s)
    ensures 0 in s.online && s.online <= e.m.topo.Keys
  {
  }

  lemma ReallocatedAlike(e: Env, s: State, cfg: NodeConfig, pools: map<string, PoolView>, s': State)
    requires ActivatesTo(s.pools, cfg, pools) && Reallocated(e, pools, s.containers, s'.pools, s'.containers)
    ensures Alike(s.containers, s'.containers) && s.pools.Keys <= s'.pools.Keys
  {
    hide ContainersOk, ReallocatedPool, Exclusive;
  }

  lemma ContinuesIs(s: State, s': State)
    requires Steady(s') && Alike(s.containers, s'.containers) && s.pools.Keys <= s'.pools.Keys
    ensures Continues(s, s')
  {
  }

  /** The containers of a published snapshot are still the current ones if those are alike. */
  lemma FaithfulStill(pub: Published, s: State, s': State)
    requires Faithful(pub, s) && Alike(s.containers, s'.containers) && s.pools.Keys <= s'.pools.Keys
    ensures Faithful(pub, s')
  {
    var t :| IsSnapshot(pub, s, t);
    hide Consistent, Snapshot;
    assert IsSnapshot(pub, s', t);
  }

  lemma SnapshotKeys(s: State)
    requires RESERVED in s.pools && DEFAULT in s.pools
    ensures Snapshot(s).assignments.Keys == Assignments(s).Keys == s.containers.Keys
    ensures Snapshot(s).capacity.Keys == Capacities(s).Keys == s.pools.Keys
  {
  }

  lemma AlikeRefl(cs: map<string, Container>)
    ensures Alike(cs, cs)
  {
  }

  /** Publishing on top of an older snapshot gives exactly the snapshot of the current state. */
  lemma PublishIsSnapshot(pub: Published, s: State)
    requires Consistent(s)
    requires pub.assignments.Keys <= s.containers.Keys && pub.capacity.Keys <= s.pools.Keys
    ensures Publish(pub, s) == Snapshot(s) && Faithful(Snapshot(s), s)
  {
    SnapshotKeys(s);
    Overwritten(pub.assignments, Assignments(s));
    Overwritten(pub.capacity, Capacities(s));
    hide Assignments, Capacities, Sound, ConfigCurrent, ExpectedCache, Faithful;
    FaithfulNow(s);
  }

  lemma Overwritten<V>(a: map<string, V>, b: map<string, V>)
    requires a.Keys <= b.Keys
    ensures a + b == b
  {
  }

  lemma FaithfulNow(s: State)
    requires Consistent(s)
    ensures Faithful(Snapshot(s), s)
  {
    AlikeRefl(s.containers);
    hide Assignments, Capacities, Sound, ConfigCurrent, ExpectedCache, Alike;
    assert IsSnapshot(Snapshot(s), s, s);
  }

  lemma FaithfulKeys(pub: Published, s: State)
    requires Faithful(pub, s)
    ensures pub.assignments.Keys == s.containers.Keys && pub.capacity.Keys <= s.pools.Keys
  {
    var t :| IsSnapshot(pub, s, t);
    SnapshotKeys(t);
    hide Snapshot, Sound, ConfigCurrent, ExpectedCache, AlikeContainer;
  }

  /** AddContainer keeps the world in order: it changes nothing at all, or publishes the snapshot of the new state. */
  lemma AddedKeeps(e: Env, w: World, id: string, pool: string, req: int, lim: int, w': World)
    requires ValidEnv(e) && WorldOk(e, w) && Added(e, w, id, pool, req, lim, w')
    ensures WorldOk(e, w')
    ensures w' == w || w'.pub == Snapshot(w'.s)
  {
    if id !in w.s.containers {
      var ok :| && Took(e, w.s, id, pool, req, lim, w'.s, ok)
                && if ok then RESERVED in w'.s.pools && DEFAULT in w'.s.pools && w'.pub == Publish(w.pub, w'.s)
                   else w'.pub == w.pub;
      TookKeeps(e, w.s, id, pool, req, lim, w'.s, ok);
      FaithfulKeys(w.pub, w.s);
      hide Consistent, Faithful, Publish, Snapshot, HtFree, NoDeadCore, ToOffline, Took;
      if ok {
        PublishIsSnapshot(w.pub, w'.s);
      }
    }
  }

  /** An allocation changes no configuration, no online CPU and no other container. */
  lemma TookKeeps(e: Env, s: State, id: string, pool: string, req: int, lim: int, s': State, ok: bool)
    requires ValidEnv(e) && Consistent(s) && id !in s.containers && Took(e, s, id, pool, req, lim, s', ok)
    ensures Consistent(s') && OnlyAdds(s, id, s', ok)
  {
    hide Consistent, TookCpus, TookShare, OnlyAdds;
    if AsksExclusive(req, lim) {
      var result :| TookCpus(e, s, id, pool, req / 1000, s', ok, result);
      TookCpusKeeps(e, s, id, pool, req / 1000, s', ok, result);
      TookCpusOnlyAdds(e, s, id, pool, req / 1000, s', ok, result);
    } else {
      var result :| TookShare(s, id, pool, req, s', ok, result);
      TookShareKeeps(s, id, pool, req, s', ok, result);
      TookShareOnlyAdds(s, id, pool, req, s', ok, result);
    }
  }

  /** At most a container was added. */
  ghost predicate OnlyAdds(s: State, id: string, s': State, ok: bool) {
    && s'.currentCfg == s.currentCfg && s'.pendingCfg == s.pendingCfg && s'.online == s.online
    && s'.pools.Keys == s.pools.Keys && s.containers.Keys <= s'.containers.Keys <= s.containers.Keys + {id}
    && (forall other :: other in s.containers ==> s'.containers[other] == s.containers[other])
    && (!ok ==> s' == s)
  }

  lemma TookShareOnlyAdds(s: State, id: string, pool: string, req: int, s': State, ok: bool, result: CPUSet)
    requires id !in s.containers && TookShare(s, id, pool, req, s', ok, result)
    ensures OnlyAdds(s, id, s', ok)
  {
  }

  lemma TookCpusOnlyAdds(e: Env, s: State, id: string, pool: string, n: int, s': State, ok: bool, result: CPUSet)
    requires ValidEnv(e) && id !in s.containers && TookCpus(e, s, id, pool, n, s', ok, result)
    ensures OnlyAdds(s, id, s', ok)
  {
    hide AllocSpec.Outcome;
    if pool == RESERVED {
      TookShareOnlyAdds(s, id, pool, 1000 * n, s', ok, result);
    }
  }

  /** RemoveContainer keeps the world in order and publishes the snapshot of the new state. */
  lemma RemovedKeeps(e: Env, w: World, id: string, w': World)
    requires ValidEnv(e) && WorldOk(e, w) && MildEvent(e, w.s, Remove(id)) && Removed(e, w, id, w')
    ensures WorldOk(e, w') && w'.pub == Snapshot(w'.s)
    ensures w'.s.containers.Keys == w.s.containers.Keys - {id}
    ensures Alike(w.s.containers - {id}, w'.s.containers)
  {
    var order, ok :| ReleasedTo(e, w.s, id, order, w'.s, ok);
    ReleasedToKeeps(e, w.s, id, order, w'.s, ok);
    FaithfulKeys(w.pub, w.s);
    hide Consistent, Faithful, Publish, Snapshot, ReleasedTo, HardwareOk, AlikeContainer;
    PublishIsSnapshot(w.pub.(assignments := w.pub.assignments - {id}), w'.s);
  }

  lemma ReleasedToKeeps(e: Env, s: State, id: string, order: seq<string>, s': State, ok: bool)
    requires ValidEnv(e) && Consistent(s) && HardwareOk(e, s) && MildEvent(e, s, Remove(id))
    requires ReleasedTo(e, s, id, order, s', ok)
    ensures Consistent(s') && HardwareOk(e, s') && s.pools.Keys <= s'.pools.Keys
    ensures Alike(s.containers - {id}, s'.containers)
  {
    if id in s.containers {
      ConsistentIsSteady(s);
      ReleasedKeeps(s, id);
      ReleasedHardware(e, s, id);
      hide Consistent, HardwareOk, Reconciled, Mild;
      ReconciledKeeps(e, Released(s, id), order, s', ok);
    } else {
      assert s.containers - {id} == s.containers;
    }
  }

  lemma ReleasedHardware(e: Env, s: State, id: string)
    requires HardwareOk(e, s) && Consistent(s) && id in s.containers
    ensures HardwareOk(e, Released(s, id)) && Released(s, id).pendingCfg == s.pendingCfg
    ensures Released(s, id).containers == s.containers - {id} && Released(s, id).pools.Keys == s.pools.Keys
  {
  }

  /** Trying a mild configuration keeps the world in order. */
  lemma TriedKeeps(e: Env, w: World, cfg: NodeConfig, w': World)
    requires ValidEnv(e) && WorldOk(e, w) && Mild(e, w.s, cfg) && Tried(e, w, cfg, w')
    ensures WorldOk(e, w') && w'.pub == w.pub && Alike(w.s.containers, w'.s.containers)
  {
    var s := w.s.(pendingCfg := Some(cfg));
    var order, ok :| Reconciled(e, s, order, w'.s, ok);
    MildPending(e, w.s, cfg);
    hide Consistent, HardwareOk, Reconciled, Mild, Faithful;
    ConsistentIsSteady(s);
    ReconciledKeeps(e, s, order, w'.s, ok);
    FaithfulStill(w.pub, w.s, w'.s);
  }

  lemma MildPending(e: Env, s: State, cfg: NodeConfig)
    requires ValidEnv(e) && Consistent(s) && HardwareOk(e, s) && Mild(e, s, cfg)
    ensures
      var s' := s.(pendingCfg := Some(cfg));
      Consistent(s') && HardwareOk(e, s') && Mild(e, s', cfg)
  {
    PendingConsistent(e, s, cfg);
    GentleSamePools(e, s, s.(pendingCfg := Some(cfg)), cfg);
    hide Acceptable, Ready, Gentle, Consistent, HardwareOk;
  }

  lemma PendingConsistent(e: Env, s: State, cfg: NodeConfig)
    requires Consistent(s) && HardwareOk(e, s)
    ensures Consistent(s.(pendingCfg := Some(cfg))) && HardwareOk(e, s.(pendingCfg := Some(cfg)))
  {
    hide HtFree, NoDeadCore, ToOffline, ContainersOk, Separated, Accounted;
  }

  /** Whether a configuration is gentle depends on the pools and the containers only. */
  lemma GentleSamePools(e: Env, s: State, s': State, cfg: NodeConfig)
    requires ValidEnv(e) && s'.pools == s.pools && s'.containers == s.containers
    ensures Gentle(e, s, cfg) <==> Gentle(e, s', cfg)
  {
    assert forall r :: LeavesEnough(e, s, r) <==> LeavesEnough(e, s', r);
    hide Ready, KeepsApart, LeavesEnough, Resolved, WithReserved;
  }

  /** No event harms the world. */
  lemma StepKeeps(e: Env, w: World, ev: Event, w': World)
    requires ValidEnv(e) && WorldOk(e, w) && MildEvent(e, w.s, ev) && Step(e, w, ev, w')
    ensures WorldOk(e, w')
  {
    hide WorldOk, Added, Removed, Tried, Mild;
    match ev
    case Add(id, pool, req, lim) => AddedKeeps(e, w, id, pool, req, lim, w');
    case Remove(id) => RemovedKeeps(e, w, id, w');
    case Configure(cfg) => TriedKeeps(e, w, cfg, w');
  }

  // Progress

  /** Whatever configuration is tried, it is accepted or rejected: there is an outcome. */
  lemma TriedExists(e: Env, w: World, cfg: NodeConfig) returns (w': World)
    requires ValidEnv(e)
    ensures Tried(e, w, cfg, w')
  {
    var s := w.s.(pendingCfg := Some(cfg));
    hide Reconciled, ValidEnv;
    var order := AnyOrder(cfg.Keys);
    var s', ok := ReconciledExists(e, s, order);
    w' := World(s', w.pub);
    assert Reconciled(e, s, order, w'.s, ok);
  }

  lemma TookExists(e: Env, s: State, id: string, pool: string, req: int, lim: int) returns (s': State, ok: bool)
    requires ValidEnv(e)
    ensures Took(e, s, id, pool, req, lim, s', ok) && s'.pools.Keys == s.pools.Keys
  {
    hide TookCpus, TookShare, ValidEnv;
    var result;
    if AsksExclusive(req, lim) {
      s', ok, result := TookCpusExists(e, s, id, pool, req / 1000);
    } else {
      s', ok, result := TookShareExists(s, id, pool, req);
    }
  }

  lemma ReleasedToExists(e: Env, s: State, id: string) returns (order: seq<string>, s': State, ok: bool)
    requires ValidEnv(e)
    ensures ReleasedTo(e, s, id, order, s', ok)
  {
    hide Reconciled, ValidEnv;
    order, s', ok := [], s, true;
    if id in s.containers {
      s' := s.(containers := s.containers - {id});
      if s.containers[id].pool in s.pools {
        order := if s.pendingCfg.Some? then AnyOrder(s.pendingCfg.value.Keys) else [];
        s', ok := ReconciledExists(e, Released(s, id), order);
      }
    }
  }

  lemma AddedExists(e: Env, w: World, id: string, pool: string, req: int, lim: int) returns (w': World)
    requires ValidEnv(e) && RESERVED in w.s.pools && DEFAULT in w.s.pools
    ensures Added(e, w, id, pool, req, lim, w')
  {
    hide Took, Publish, ValidEnv;
    w' := w;
    if id !in w.s.containers {
      var s', ok := TookExists(e, w.s, id, pool, req, lim);
      w' := World(s', if ok then Publish(w.pub, s') else w.pub);
      assert Took(e, w.s, id, pool, req, lim, w'.s, ok);
    }
  }

  lemma RemovedExists(e: Env, w: World, id: string) returns (w': World)
    requires ValidEnv(e) && WorldOk(e, w) && MildEvent(e, w.s, Remove(id))
    ensures Removed(e, w, id, w')
  {
    hide Consistent, HardwareOk, Faithful, ReleasedTo, MildEvent, Publish, ValidEnv;
    var order, s', ok := ReleasedToExists(e, w.s, id);
    ReleasedToKeeps(e, w.s, id, order, s', ok);
    HasRequiredPools(s');
    w' := World(s', Publish(w.pub.(assignments := w.pub.assignments - {id}), s'));
    assert ReleasedTo(e, w.s, id, order, w'.s, ok);
  }

  /** Every event can happen, in every world that is all right. */
  lemma StepExists(e: Env, w: World, ev: Event)
    requires ValidEnv(e) && WorldOk(e, w) && MildEvent(e, w.s, ev)
    ensures exists w' :: Step(e, w, ev, w')
  {
    WorldHasRequiredPools(e, w);
    hide WorldOk, Added, Removed, Tried, MildEvent;
    var w';
    match ev {
      case Add(id, pool, req, lim) => w' := AddedExists(e, w, id, pool, req, lim);
      case Remove(id) => w' := RemovedExists(e, w, id);
      case Configure(cfg) => w' := TriedExists(e, w, cfg);
    }
    assert Step(e, w, ev, w');
  }

  lemma WorldHasRequiredPools(e: Env, w: World)
    requires WorldOk(e, w)
    ensures RESERVED in w.s.pools && DEFAULT in w.s.pools
  {
    hide Sound, ConfigCurrent, ExpectedCache, HardwareOk, Faithful;
  }

  // Runs

  /** The worlds a sequence of events leads through. */
  ghost predicate Run(e: Env, ws: seq<World>, evs: seq<Event>)
    requires ValidEnv(e)
  {
    && |ws| == |evs| + 1
    && forall i :: 0 <= i < |evs| ==> MildEvent(e, ws[i].s, evs[i]) && Step(e, ws[i], evs[i], ws[i + 1])
  }

  lemma {:induction false} RunKeeps(e: Env, ws: seq<World>, evs: seq<Event>, i: nat)
    requires ValidEnv(e) && Run(e, ws, evs) && WorldOk(e, ws[0]) && i < |ws|
    ensures WorldOk(e, ws[i])
  {
    hide *;
    if i > 0 {
      RunLength(e, ws, evs);
      RunStep(e, ws, evs, i - 1);
      RunKeeps(e, ws, evs, i - 1);
      StepKeeps(e, ws[i - 1], evs[i - 1], ws[i]);
    }
  }

  lemma RunLength(e: Env, ws: seq<World>, evs: seq<Event>)
    requires ValidEnv(e) && Run(e, ws, evs)
    ensures |ws| == |evs| + 1
  {
    hide Step, MildEvent;
  }

  /** The given CPUs of a container are not published for another one, nor as default ones. */
  ghost predicate NotTold(cpus: CPUSet, pub: Published, id: string) {
    cpus !! pub.defaultCpus && forall b :: b in pub.assignments && b != id ==> cpus !! pub.assignments[b]
  }

  /** Isolation, in every state of every run: no container's exclusive CPUs are among the CPUs of another container or
      the default ones, neither in the state nor as published; and as many are published as there are. */
  lemma IsolationOverRuns(e: Env, ws: seq<World>, evs: seq<Event>, i: nat, a: string)
    requires ValidEnv(e) && Run(e, ws, evs) && WorldOk(e, ws[0]) && i < |ws| && a in ws[i].s.containers
    ensures RESERVED in ws[i].s.pools && DEFAULT in ws[i].s.pools
    ensures NotTold(ws[i].s.containers[a].cpus, Snapshot(ws[i].s), a)
    ensures ws[i].pub.assignments.Keys == ws[i].s.containers.Keys
    ensures ws[i].s.containers[a].cpus != {} ==>
              && |ws[i].pub.assignments[a]| == |ws[i].s.containers[a].cpus|
              && NotTold(ws[i].pub.assignments[a], ws[i].pub, a)
  {
    RunKeeps(e, ws, evs, i);
    hide Run, Steady, ExpectedCache, HardwareOk, Faithful, NotTold, Snapshot;
    HasRequiredPools(ws[i].s);
    SnapshotIsolation(ws[i].s, a);
    FaithfulKeys(ws[i].pub, ws[i].s);
    PublishedIsolation(ws[i], a);
  }

  lemma PublishedIsolation(w: World, a: string)
    requires Faithful(w.pub, w.s) && a in w.s.containers
    ensures w.pub.assignments.Keys == w.s.containers.Keys
    ensures w.s.containers[a].cpus != {} ==>
              |w.pub.assignments[a]| == |w.s.containers[a].cpus| && NotTold(w.pub.assignments[a], w.pub, a)
  {
    FaithfulKeys(w.pub, w.s);
    var t :| IsSnapshot(w.pub, w.s, t);
    hide Steady, ExpectedCache, Snapshot, NotTold;
    assert AlikeContainer(t.containers[a], w.s.containers[a]);
    SnapshotIsolation(t, a);
  }

  lemma SnapshotIsolation(t: State, a: string)
    requires Consistent(t) && a in t.containers
    ensures RESERVED in t.pools && DEFAULT in t.pools && NotTold(t.containers[a].cpus, Snapshot(t), a)
    ensures t.containers[a].cpus != {} ==>
              a in Snapshot(t).assignments && Snapshot(t).assignments[a] == t.containers[a].cpus
  {
    Isolation(t, a);
    HasRequiredPools(t);
    hide Steady, ExpectedCache, PoolCpuSet, Capacities;
  }

  /** Accounting, in every state of every run: the pinned CPUs of a pool are its containers' exclusive ones, and 1000
      for each of them and what is used of the shared ones make up the sum of all its containers' requests. Reported
      are exactly the pools other than the reserved one and one without a name: with their shared CPUs, their
      containers' exclusive CPUs, 1000 for each of these CPUs as capacity, and the sum of their containers' requests as
      usage. */
  lemma AccountsOverRuns(e: Env, ws: seq<World>, evs: seq<Event>, i: nat, p: string)
    requires ValidEnv(e) && Run(e, ws, evs) && WorldOk(e, ws[0]) && i < |ws| && p in ws[i].s.pools
    ensures
      var s := ws[i].s;
      && s.pools[p].pinned == Exclusive(s.containers, p)
      && 1000 * |s.pools[p].pinned| + s.pools[p].used == Sum(Requests(s.containers, p))
    ensures ws[i].s.cache.Keys == ws[i].s.pools.Keys - {"reserved", ""}
    ensures p in ws[i].s.cache ==>
              var s, data := ws[i].s, ws[i].s.cache[p];
              && data.name == p && data.shared == s.pools[p].shared && data.exclusive == Exclusive(s.containers, p)
              && data.capacity == 1000 * (|data.shared| + |data.exclusive|)
              && data.usage == Sum(Requests(s.containers, p))
  {
    hide *;
    RunLength(e, ws, evs);
    RunKeeps(e, ws, evs, i);
    WorldIs(e, ws[i]);
    CacheIs(ws[i].s);
    AccountsIs(ws[i].s, p);
  }

  lemma WorldIs(e: Env, w: World)
    requires WorldOk(e, w)
    ensures Consistent(w.s) && HardwareOk(e, w.s) && Faithful(w.pub, w.s)
  {
  }

  lemma AccountsIs(s: State, p: string)
    requires Consistent(s) && p in s.pools
    ensures s.pools[p].pinned == Exclusive(s.containers, p)
    ensures 1000 * |s.pools[p].pinned| + s.pools[p].used == Sum(Requests(s.containers, p))
  {
    UsageIsRequests(s, p);
    hide Separated, ContainersOk, ConfigCurrent, Exclusive, Sum, Uses, Requests, ExpectedCache;
  }

  /** The metrics cache of a consistent state, field by field. */
  lemma CacheIs(s: State)
    requires Consistent(s)
    ensures s.cache.Keys == s.pools.Keys - {"reserved", ""}
    ensures forall p :: p in s.cache ==>
              && s.cache[p].name == p && s.cache[p].shared == s.pools[p].shared
              && s.cache[p].exclusive == s.pools[p].pinned
              && s.cache[p].capacity == 1000 * (|s.pools[p].shared| + |s.pools[p].pinned|)
              && s.cache[p].usage == 1000 * |s.pools[p].pinned| + s.pools[p].used
  {
    hide Steady;
  }

  /** Nobody removes the container. */
  ghost predicate Stays(evs: seq<Event>, id: string, i: nat, j: nat)
    requires i <= j <= |evs|
  {
    forall k :: i <= k < j ==> evs[k] != Remove(id)
  }

  lemma {:induction false} StaysAlike(e: Env, ws: seq<World>, evs: seq<Event>, i: nat, j: nat, id: string)
    requires ValidEnv(e) && Run(e, ws, evs) && WorldOk(e, ws[0]) && i <= j < |ws|
    requires id in ws[i].s.containers && Stays(evs, id, i, j)
    ensures id in ws[j].s.containers && AlikeContainer(ws[i].s.containers[id], ws[j].s.containers[id])
    decreases j
  {
    hide *;
    RunLength(e, ws, evs);
    AlikeSelf(ws[i].s.containers[id]);
    if i < j {
      RunStep(e, ws, evs, j - 1);
      StaysShorter(evs, id, i, j);
      StaysAlike(e, ws, evs, i, j - 1, id);
      RunKeeps(e, ws, evs, j - 1);
      StepLasts(e, ws[j - 1], evs[j - 1], ws[j], id);
      AlikeOnwards(ws[i].s.containers[id], ws[j - 1].s.containers[id], ws[j].s.containers[id]);
    }
  }

  /** A container that is not removed keeps its pool, its request and the number of its exclusive CPUs, whatever
      containers come and go and whatever configurations are tried. */
  lemma AssignmentLasts(e: Env, ws: seq<World>, evs: seq<Event>, i: nat, j: nat, id: string)
    requires ValidEnv(e) && Run(e, ws, evs) && WorldOk(e, ws[0]) && i <= j < |ws|
    requires id in ws[i].s.containers && Stays(evs, id, i, j)
    ensures id in ws[j].s.containers && AlikeContainer(ws[i].s.containers[id], ws[j].s.containers[id])
    ensures
      var c, c' := ws[i].s.containers[id], ws[j].s.containers[id];
      c'.id == c.id && c'.pool == c.pool && c'.req == c.req && |c'.cpus| == |c.cpus|
  {
    hide *;
    RunLength(e, ws, evs);
    StaysAlike(e, ws, evs, i, j, id);
    AlikeFields(ws[i].s.containers[id], ws[j].s.containers[id]);
  }

  lemma RunStep(e: Env, ws: seq<World>, evs: seq<Event>, k: nat)
    requires ValidEnv(e) && Run(e, ws, evs) && k < |evs|
    ensures k + 1 < |ws| && MildEvent(e, ws[k].s, evs[k]) && Step(e, ws[k], evs[k], ws[k + 1])
  {
    hide Step, MildEvent;
  }

  lemma StaysShorter(evs: seq<Event>, id: string, i: nat, j: nat)
    requires i < j <= |evs| && Stays(evs, id, i, j)
    ensures Stays(evs, id, i, j - 1) && evs[j - 1] != Remove(id)
  {
  }

  lemma AlikeFields(c: Container, c': Container)
    requires AlikeContainer(c, c')
    ensures c'.id == c.id && c'.pool == c.pool && c'.req == c.req && |c'.cpus| == |c.cpus|
  {
  }

  lemma AlikeSelf(c: Container)
    ensures AlikeContainer(c, c)
  {
  }

  lemma AlikeOnwards(a: Container, b: Container, c: Container)
    requires AlikeContainer(a, b) && AlikeContainer(b, c)
    ensures AlikeContainer(a, c)
  {
  }

  lemma StepLasts(e: Env, w: World, ev: Event, w': World, id: string)
    requires ValidEnv(e) && WorldOk(e, w) && MildEvent(e, w.s, ev) && Step(e, w, ev, w')
    requires id in w.s.containers && ev != Remove(id)
    ensures id in w'.s.containers && AlikeContainer(w.s.containers[id], w'.s.containers[id])
  {
    hide Consistent, HardwareOk, Faithful, Removed, Tried, Mild, Took, OnlyAdds, Publish;
    match ev
    case Add(x, pool, req, lim) =>
      if x !in w.s.containers {
        var ok :| Took(e, w.s, x, pool, req, lim, w'.s, ok);
        TookKeeps(e, w.s, x, pool, req, lim, w'.s, ok);
        OthersStay(w.s, x, w'.s, ok, id);
      }
    case Remove(x) => RemovedKeeps(e, w, x, w');
    case Configure(cfg) => TriedKeeps(e, w, cfg, w');
  }

  lemma OthersStay(s: State, id: string, s': State, ok: bool, other: string)
    requires OnlyAdds(s, id, s', ok) && other in s.containers
    ensures other in s'.containers && s'.containers[other] == s.containers[other]
  {
  }

  // Capacity

  /** The pool loses CPUs: it is asked for more exclusive CPUs than the allocator can use, but for fewer than it has. */
  ghost predicate Drains(e: Env, s: State, pool: string, n: int)
    requires ValidEnv(e)
  {
    var p := ExclusivePool(pool);
    && pool != RESERVED && Allowed(p) && p in s.pools
    && var usable := AllocSpec.Usable(e.m.topo, e.allocOffline, s.pools[p].shared);
       n < |s.pools[p].shared| && !(0 <= n <= |usable|) && usable != {}
  }

  /** Adding a container changes the capacity of some pool exactly if it drains the pool it asks for. */
  lemma AddKeepsCapacityIff(e: Env, s: State, id: string, pool: string, req: int, lim: int, s': State, ok: bool)
    requires ValidEnv(e) && Consistent(s) && id !in s.containers && Took(e, s, id, pool, req, lim, s', ok)
    ensures Capacities(s') == Capacities(s) <==> !(AsksExclusive(req, lim) && Drains(e, s, pool, req / 1000))
  {
    if AsksExclusive(req, lim) {
      var result :| TookCpus(e, s, id, pool, req / 1000, s', ok, result);
      CpusCapacity(e, s, id, pool, req / 1000, s', ok, result);
      hide Consistent, TookCpus;
    } else {
      var result :| TookShare(s, id, pool, req, s', ok, result);
      ShareCapacity(s, id, pool, req, s', ok, result);
    }
  }

  lemma CpusCapacity(e: Env, s: State, id: string, pool: string, n: int, s': State, ok: bool, result: CPUSet)
    requires ValidEnv(e) && Sound(s) && TookCpus(e, s, id, pool, n, s', ok, result)
    ensures Capacities(s') == Capacities(s) <==> !Drains(e, s, pool, n)
  {
    var p := ExclusivePool(pool);
    hide Capacities, PoolCapacity, Sound;
    if pool == RESERVED {
      ShareCapacity(s, id, pool, 1000 * n, s', ok, result);
    } else if Allowed(p) && p in s.pools {
      var left := TookFrom(e, s, id, pool, n, s', ok, result);
      OutcomeOk(e.m.topo, e.allocOffline, s.pools[p].shared, n, result, left, ok);
      if ok {
        CapacityKeptIff(e, s, id, pool, n, s', result);
        hide TookCpus, AllocSpec.Usable, Allowed;
        OneCapacity(s, s', p);
      }
    }
  }

  lemma OutcomeOk(t: Topology, offline: CPUSet, from: CPUSet, n: int, result: CPUSet, left: CPUSet, ok: bool)
    requires NoDeadCore(t, offline) && AllocSpec.Outcome(t, offline, from, n, result, left, ok)
    ensures ok <==> n <= |from|
  {
  }

  lemma ShareCapacity(s: State, id: string, pool: string, req: int, s': State, ok: bool, result: CPUSet)
    requires TookShare(s, id, pool, req, s', ok, result)
    ensures Capacities(s') == Capacities(s)
  {
  }

  lemma OneCapacity(s: State, s': State, p: string)
    requires p in s.pools && s'.pools.Keys == s.pools.Keys
    requires forall q :: q in s.pools && q != p ==> s'.pools[q] == s.pools[q]
    ensures Capacities(s') == Capacities(s) <==> PoolCapacity(s'.pools[p]) == PoolCapacity(s.pools[p])
  {
    if Capacities(s') == Capacities(s) {
      assert Capacities(s')[p] == Capacities(s)[p];
    }
  }

  // Publication

  /** What is published is up to date. */
  ghost predicate Fresh(w: World) {
    RESERVED in w.s.pools && DEFAULT in w.s.pools && w.pub == Snapshot(w.s)
  }

  /** Removing or successfully adding a container brings what is published up to date, and nothing but an accepted
      configuration makes it out of date. */
  lemma StaysFresh(e: Env, w: World, ev: Event, w': World)
    requires ValidEnv(e) && WorldOk(e, w) && MildEvent(e, w.s, ev) && Step(e, w, ev, w')
    requires Fresh(w) || ev.Remove? || (ev.Add? && w' != w)
    ensures Fresh(w') || Reconfigures(e, w, ev)
  {
    StepKeeps(e, w, ev, w');
    hide Sound, ConfigCurrent, ExpectedCache, HardwareOk, Faithful, Removed, Tried, Snapshot, Mild, Took, Publish;
    match ev
    case Add(id, pool, req, lim) => AddedKeeps(e, w, id, pool, req, lim, w');
    case Remove(id) => RemovedKeeps(e, w, id, w');
    case Configure(cfg) => NotReconfigured(e, w, cfg, w');
  }

  /** A configuration is tried that is accepted. */
  ghost predicate Reconfigures(e: Env, w: World, ev: Event)
    requires ValidEnv(e)
  {
    ev.Configure? && Acceptable(e.m, Busy(w.s.pools), ev.cfg)
  }

  /** The event before published everything: a container was removed, or one was added. */
  ghost predicate JustPublished(ws: seq<World>, evs: seq<Event>, i: nat)
    requires i <= |evs| < |ws|
  {
    i > 0 && (evs[i - 1].Remove? || (evs[i - 1].Add? && ws[i] != ws[i - 1]))
  }

  /** From any moment at which everything was published, what is published is up to date until a configuration is
      accepted. */
  lemma {:induction false} FreshOverRuns(e: Env, ws: seq<World>, evs: seq<Event>, i: nat, j: nat)
    requires ValidEnv(e) && Run(e, ws, evs) && WorldOk(e, ws[0]) && i <= j < |ws|
    requires JustPublished(ws, evs, i) || Fresh(ws[i])
    requires forall k :: i <= k < j ==> !Reconfigures(e, ws[k], evs[k])
    ensures Fresh(ws[j])
    decreases j
  {
    hide WorldOk, Step, MildEvent, Reconfigures, Fresh;
    if i < j {
      FreshOverRuns(e, ws, evs, i, j - 1);
      RunKeeps(e, ws, evs, j - 1);
      RunStep(e, ws, evs, j - 1);
      StaysFresh(e, ws[j - 1], evs[j - 1], ws[j]);
    } else if !Fresh(ws[i]) {
      RunKeeps(e, ws, evs, i - 1);
      RunStep(e, ws, evs, i - 1);
      NotConfigured(e, ws[i - 1], evs[i - 1]);
      StaysFresh(e, ws[i - 1], evs[i - 1], ws[i]);
    }
  }

  lemma NotConfigured(e: Env, w: World, ev: Event)
    requires ValidEnv(e) && !ev.Configure?
    ensures !Reconfigures(e, w, ev)
  {
  }

  lemma NotReconfigured(e: Env, w: World, cfg: NodeConfig, w': World)
    requires ValidEnv(e) && WorldOk(e, w) && Mild(e, w.s, cfg) && Tried(e, w, cfg, w')
    ensures RESERVED in w'.s.pools && DEFAULT in w'.s.pools && w'.pub == w.pub
    ensures Acceptable(e.m, Busy(w.s.pools), cfg) ||
            (w'.s.containers == w.s.containers && Snapshot(w'.s) == Snapshot(w.s))
  {
    var s := w.s.(pendingCfg := Some(cfg));
    var order, ok :| Reconciled(e, s, order, w'.s, ok);
    MildPending(e, w.s, cfg);
    MildNames(e, w.s, cfg);
    hide Reconciled, Mild, Consistent, HardwareOk, Faithful;
    TriedKeeps(e, w, cfg, w');
    HasRequiredPools(w.s);
    HasRequiredPools(w'.s);
    var accepts := ReconciledAs(e, s, order, w'.s, ok);
    hide *;
    NoneOverlookedAgrees(e.m, Busy(w.s.pools), cfg);
    PreparationMeans(e.m, Busy(w.s.pools), cfg, order);
    if !accepts {
      ConsistentIsSteady(s);
      RejectedKeeps(e, s, cfg, w'.s);
      SameSnapshot(w.s, w'.s);
    }
  }

  lemma MildNames(e: Env, s: State, cfg: NodeConfig)
    requires ValidEnv(e) && Mild(e, s, cfg)
    ensures NoneOverlooked(cfg)
  {
  }

  lemma HasRequiredPools(s: State)
    requires Consistent(s)
    ensures RESERVED in s.pools && DEFAULT in s.pools
  {
  }

  lemma SameSnapshot(s: State, s': State)
    requires RESERVED in s.pools && DEFAULT in s.pools && s'.pools == s.pools && s'.containers == s.containers
    ensures Snapshot(s') == Snapshot(s)
  {
  }

  // The first configuration

  /** The pool set before any configuration. */
  ghost function NoPools(online: CPUSet, cache: map<string, PoolData>): State {
    State(map[], map[], {}, map[], None, cache, online)
  }

  /** A gentle configuration that is accepted puts everything in order, and publishing it makes a world that is all
      right. */
  lemma FirstAccepted(e: Env, s: State, cfg: NodeConfig, order: seq<string>, s': State, pub: Published)
    requires ValidEnv(e) && Sound(s) && 0 in s.online && s.online <= e.m.topo.Keys && Gentle(e, s, cfg)
    requires IsOrder(order, cfg.Keys) && Accepts(e.m, Busy(s.pools), cfg, order) && Accepted(e, s, cfg, order, s')
    requires pub.assignments.Keys <= s'.containers.Keys && pub.capacity.Keys <= s'.pools.Keys
    ensures RESERVED in s'.pools && DEFAULT in s'.pools && WorldOk(e, World(s', Publish(pub, s')))
  {
    hide Sound, Gentle, Accepts, Accepted, ConfigCurrent, ExpectedCache, HardwareOk, Snapshot, Publish, Faithful;
    AcceptedKeeps(e, s, cfg, order, s');
    GentleIsSensible(e, s, cfg);
    AcceptedHardware(e, s, cfg, order, s');
    PublishIsSnapshot(pub, s');
  }

  /** An accepted file is gentle where there are no pools yet. */
  lemma ParsedIsGentle(e: Env, file: map<string, FileEntry>, numReserved: nat, s: State)
    requires ValidEnv(e) && s.pools == map[] && s.containers == map[]
    requires forall p :: p in file ==> AcceptableEntry(p, file[p], e.m.isolated)
    requires ReservedIsConcrete(file, numReserved) && ("" in file ==> !file[""].cpus.Wildcard?)
    ensures Gentle(e, s, Parsed(file, numReserved)) && Sound(s)
  {
    ParsedIsReady(file, numReserved, e.m.isolated);
    hide Ready, WithReserved, Resolved, Sum, Uses, AllocSpec.Usable, Resolved;
  }

  /** From a configuration file to the first publication: the configuration is accepted, in whatever order its pools are
      visited, exactly if the declarative predicate holds of what the file says, and then the world is all right. */
  lemma StartsWell(e: Env, file: map<string, FileEntry>, numReserved: nat, online: CPUSet, cache: map<string, PoolData>,
                   order: seq<string>, s': State, ok: bool)
    requires ValidEnv(e) && 0 in online && online <= e.m.topo.Keys
    requires forall p :: p in file ==> AcceptableEntry(p, file[p], e.m.isolated)
    requires ReservedIsConcrete(file, numReserved) && ("" in file ==> !file[""].cpus.Wildcard?)
    requires Reconciled(e, NoPools(online, cache).(pendingCfg := Some(Parsed(file, numReserved))), order, s', ok)
    ensures ok <==> Acceptable(e.m, {}, Parsed(file, numReserved))
    ensures ok ==>
              RESERVED in s'.pools && DEFAULT in s'.pools &&
              WorldOk(e, World(s', Publish(Published(map[], {}, map[]), s')))
  {
    var cfg := Parsed(file, numReserved);
    var s := NoPools(online, cache).(pendingCfg := Some(cfg));
    ParsedIsGentle(e, file, numReserved, s);
    var accepts := ReconciledAs(e, s, order, s', ok);
    assert Busy(s.pools) == {};
    GentleNames(e, s, cfg);
    NoneOverlookedAgrees(e.m, {}, cfg);
    PreparationMeans(e.m, {}, cfg, order);
    hide Accepts, Acceptable, Accepted, Parsed, AcceptableEntry, ReservedIsConcrete, Gentle, Sound, Reconciled,
        WorldOk, Publish;
    if accepts {
      FirstAccepted(e, s, cfg, order, s', Published(map[], {}, map[]));
    }
  }

  /** Enough for a configuration to be gentle: it names every pool, and each pool keeps its pinned CPUs,
      all of which the allocator can use. */
  lemma KeepingIsGentle(e: Env, s: State, cfg: NodeConfig)
    requires ValidEnv(e) && Sensible(cfg) && DEFAULT in cfg && s.pools.Keys <= cfg.Keys
    requires Acceptable(e.m, Busy(s.pools), cfg)
    requires forall p :: p in s.pools ==>
               s.pools[p].pinned <= AllocSpec.Usable(e.m.topo, e.allocOffline, NewCpus(s.pools, Resolved(e.m, cfg), p))
    ensures Gentle(e, s, cfg)
  {
    ResolvedIsFull(e.m, Busy(s.pools), cfg);
    hide Resolved, Acceptable, WithReserved, ValidMachine, KeepsApart, LeavesEnough, NewCpus, AllocSpec.Usable,
        FullConfig, Ready;
    KeepingKeepsApart(e, s.pools, Resolved(e.m, cfg));
    KeepingLeavesEnough(e, s, Resolved(e.m, cfg));
  }

  lemma KeepingKeepsApart(e: Env, pools: map<string, PoolView>, cfg: NodeConfig)
    requires FullConfig(cfg) && pools.Keys <= cfg.Keys
    requires forall p :: p in pools ==>
        pools[p].pinned <= AllocSpec.Usable(e.m.topo, e.allocOffline, NewCpus(pools, cfg, p))
    ensures KeepsApart(pools, cfg)
  {
    forall p, q | p in pools && q in pools.Keys + cfg.Keys && p != q ensures pools[p].pinned !! NewCpus(pools, cfg, q) {
      assert NewCpus(pools, cfg, p) !! NewCpus(pools, cfg, q);
    }
  }

  lemma KeepingLeavesEnough(e: Env, s: State, cfg: NodeConfig)
    requires forall p :: p in s.pools ==>
        s.pools[p].pinned <= AllocSpec.Usable(e.m.topo, e.allocOffline, NewCpus(s.pools, cfg, p))
    ensures LeavesEnough(e, s, cfg)
  {
    hide NewCpus, AtMostOne;
    var pools := s.pools;
    forall p | p in pools
      ensures |pools[p].pinned| <=
              |AllocSpec.Usable(e.m.topo, e.allocOffline, NewCpus(pools, cfg, p) + pools[p].pinned)|
    {
      SubsetSize(pools[p].pinned, AllocSpec.Usable(e.m.topo, e.allocOffline, NewCpus(pools, cfg, p) + pools[p].pinned));
    }
  }

  // Gentle configurations stay gentle

  /** Pools with the same configurations and no more pinned CPUs. */
  ghost predicate PinsLess(pools: map<string, PoolView>, pools': map<string, PoolView>) {
    && pools'.Keys == pools.Keys
    && forall p :: p in pools ==> pools'[p].pinned <= pools[p].pinned && pools'[p].cfg == pools[p].cfg
  }

  lemma ReleasedPinsLess(s: State, id: string)
    requires id in s.containers && s.containers[id].pool in s.pools
    ensures PinsLess(s.pools, Released(s, id).pools)
  {
    hide Measure;
  }

  lemma StillEnough(t: Topology, offline: CPUSet, cpus: CPUSet, pinned: CPUSet, pinned': CPUSet)
    requires pinned' <= pinned && |pinned| <= |AllocSpec.Usable(t, offline, cpus + pinned)|
    ensures |pinned'| <= |AllocSpec.Usable(t, offline, cpus + pinned')|
  {
    var all, rest := AllocSpec.Usable(t, offline, cpus + pinned), AllocSpec.Usable(t, offline, cpus + pinned');
    SubsetSize(all - rest, pinned - pinned');
    DifferenceSize(all, rest);
    DifferenceSize(pinned, pinned');
  }

  lemma SameNewCpus(pools: map<string, PoolView>, pools': map<string, PoolView>, cfg: NodeConfig)
    requires PinsLess(pools, pools')
    ensures forall p :: NewCpus(pools', cfg, p) == NewCpus(pools, cfg, p)
  {
  }

  lemma ReleasedEnough(e: Env, s: State, id: string, cfg: NodeConfig)
    requires Sound(s) && id in s.containers && LeavesEnough(e, s, cfg)
    ensures LeavesEnough(e, Released(s, id), cfg)
  {
    var s' := Released(s, id);
    ReleasedPinsLess(s, id);
    SameNewCpus(s.pools, s'.pools, cfg);
    forall p | p in s'.pools
      ensures Suffices(e, NewCpus(s'.pools, cfg, p) + s'.pools[p].pinned, s'.pools[p].pinned,
                       AtMostOne(s'.containers, p))
    {
      PoolReleased(s, id, p);
      hide *;
      LeavesEnoughFor(e, s, cfg, p);
      StillSuffices(e, NewCpus(s.pools, cfg, p), s.pools[p].pinned, s'.pools[p].pinned, AtMostOne(s.containers, p),
                    AtMostOne(s'.containers, p));
    }
  }

  lemma LeavesEnoughFor(e: Env, s: State, cfg: NodeConfig, p: string)
    requires LeavesEnough(e, s, cfg) && p in s.pools
    ensures Suffices(e, NewCpus(s.pools, cfg, p) + s.pools[p].pinned, s.pools[p].pinned, AtMostOne(s.containers, p))
  {
  }

  /** A released container leaves its pool's other exclusive containers as they were, if there are any. */
  lemma PoolReleased(s: State, id: string, p: string)
    requires Sound(s) && id in s.containers && p in s.pools
    ensures p in Released(s, id).pools && Released(s, id).pools[p].pinned <= s.pools[p].pinned
    ensures AtMostOne(s.containers, p) ==>
              && AtMostOne(Released(s, id).containers, p)
              && Released(s, id).pools[p].pinned in {s.pools[p].pinned, {}}
  {
    var c := s.containers[id];
    if AtMostOne(s.containers, p) && c.pool == p && c.cpus != {} {
      NobodyElse(s.containers, id, p);
      ExclusiveSplit(s.containers, id, p);
      assert s.pools[p].pinned == {} + c.cpus;
    }
  }

  lemma StillSuffices(e: Env, cpus: CPUSet, pinned: CPUSet, pinned': CPUSet, alone: bool, alone': bool)
    requires Suffices(e, cpus + pinned, pinned, alone) && pinned' <= pinned
    requires alone ==> alone' && pinned' in {pinned, {}}
    ensures Suffices(e, cpus + pinned', pinned', alone')
  {
    hide AllocSpec.Usable;
    if |pinned| <= |AllocSpec.Usable(e.m.topo, e.allocOffline, cpus + pinned)| {
      StillEnough(e.m.topo, e.allocOffline, cpus, pinned, pinned');
    }
  }

  lemma PinsLessApart(pools: map<string, PoolView>, pools': map<string, PoolView>, cfg: NodeConfig)
    requires PinsLess(pools, pools') && KeepsApart(pools, cfg)
    ensures KeepsApart(pools', cfg)
  {
    SameNewCpus(pools, pools', cfg);
    hide NewCpus;
    forall p, q | p in pools' && q in pools'.Keys + cfg.Keys && p != q
      ensures pools'[p].pinned !! NewCpus(pools', cfg, q)
      ensures p !in cfg ==> NewCpus(pools', cfg, p) !! NewCpus(pools', cfg, q)
    {
      assert pools[p].pinned !! NewCpus(pools, cfg, q);
    }
  }

  lemma PoolOf(s: State, a: string)
    requires Sound(s) && a in s.containers
    ensures s.containers[a].pool in s.pools
  {
  }

  /** Releasing a container keeps a configuration gentle: it only gets easier to take it in use. */
  lemma GentleAfterRelease(e: Env, s: State, id: string, cfg: NodeConfig)
    requires ValidEnv(e) && Sound(s) && id in s.containers && Gentle(e, s, cfg)
    ensures Gentle(e, Released(s, id), cfg)
  {
    PoolOf(s, id);
    ReleasedPinsLess(s, id);
    hide Released, KeepsApart, LeavesEnough, Ready, Resolved, WithReserved, ValidMachine, Sound;
    if WithReserved(e.m, cfg).Some? {
      PinsLessApart(s.pools, Released(s, id).pools, Resolved(e.m, cfg));
      ReleasedEnough(e, s, id, Resolved(e.m, cfg));
    }
  }

  /** What is retained of a rejected configuration is as gentle as the configuration was. */
  lemma GentleWhenRetained(e: Env, s: State, cfg: NodeConfig, cfg': NodeConfig)
    requires ValidEnv(e) && Gentle(e, s, cfg) && SameRequest(e.m, cfg, cfg')
    ensures Gentle(e, s, cfg')
  {
    RetainedIsSetUp(e.m, cfg, cfg');
    RetainedIsSensible(e.m, cfg, cfg');
    if WithReserved(e.m, cfg).Some? {
      SameSetUp(e.m, {}, WithReserved(e.m, cfg).value, cfg');
      assert Resolved(e.m, cfg') == Resolved(e.m, cfg);
    }
    hide Sensible, WithReserved, ResolvedSetUp, KeepsApart, LeavesEnough, ValidMachine, SameRequest;
  }

  lemma RetainedIsSensible(m: Machine, cfg: NodeConfig, cfg': NodeConfig)
    requires ValidMachine(m) && SameRequest(m, cfg, cfg') && Sensible(cfg)
    ensures Sensible(cfg') && cfg'.Keys == cfg.Keys
  {
    var base := if WithReserved(m, cfg).Some? then WithReserved(m, cfg).value else cfg;
    assert base.Keys == cfg.Keys && forall p :: p in base && p != RESERVED ==> base[p] == cfg[p];
    assert RESERVED in base ==> base[RESERVED].cpuCount == cfg[RESERVED].cpuCount;
    hide ValidMachine;
  }

  /** Releasing containers one by one with a gentle configuration pending: whenever it is tried, the state stays
      steady, and as long as it is pending it stays gentle. */
  lemma ReleasedToStaysGentle(e: Env, s: State, id: string, order: seq<string>, s': State, ok: bool)
    requires ValidEnv(e) && Steady(s) && id in s.containers && ReleasedTo(e, s, id, order, s', ok)
    requires s.pendingCfg.Some? ==> Gentle(e, s, s.pendingCfg.value)
    ensures Steady(s') && s.pools.Keys <= s'.pools.Keys && Alike(s.containers - {id}, s'.containers)
    ensures s'.pendingCfg.Some? ==> Gentle(e, s', s'.pendingCfg.value)
  {
    var r := ReleasedOne(e, s, id, order, s', ok);
    hide *;
    if s.pendingCfg.Some? {
      SteadyIsSound(s);
      GentleAfterRelease(e, s, id, s.pendingCfg.value);
      GentleIsMild(e, r, s.pendingCfg.value);
    }
    ReconciledKeeps(e, r, order, s', ok);
    Continued(r, s');
    PendingStaysGentle(e, r, order, s', ok);
  }

  lemma ReleasedOne(e: Env, s: State, id: string, order: seq<string>, s': State, ok: bool) returns (r: State)
    requires ValidEnv(e) && Steady(s) && id in s.containers && ReleasedTo(e, s, id, order, s', ok)
    ensures s.containers[id].pool in s.pools && r == Released(s, id) && Steady(r) && Reconciled(e, r, order, s', ok)
    ensures r.pendingCfg == s.pendingCfg && r.containers == s.containers - {id} && r.pools.Keys == s.pools.Keys
  {
    r := Released(s, id);
    ReleasedKeeps(s, id);
    hide Reconciled, Separated, Accounted, ConfigCurrent, ExpectedCache;
  }

  lemma Continued(s: State, s': State)
    requires Continues(s, s')
    ensures Steady(s') && Alike(s.containers, s'.containers) && s.pools.Keys <= s'.pools.Keys
  {
  }

  lemma GentleIsMild(e: Env, s: State, cfg: NodeConfig)
    requires ValidEnv(e) && Gentle(e, s, cfg)
    ensures Mild(e, s, cfg)
  {
  }

  lemma PendingStaysGentle(e: Env, s: State, order: seq<string>, s': State, ok: bool)
    requires ValidEnv(e) && Steady(s) && Reconciled(e, s, order, s', ok)
    requires s.pendingCfg.Some? ==> Gentle(e, s, s.pendingCfg.value)
    ensures s'.pendingCfg.Some? ==> Gentle(e, s', s'.pendingCfg.value)
  {
    if s.pendingCfg.Some? {
      var cfg := s.pendingCfg.value;
      var accepts := ReconciledAs(e, s, order, s', ok);
      hide Gentle, Steady, Reconciled, Activation, Accepts;
      if !accepts {
        RejectedKeeps(e, s, cfg, s');
        GentleWhenRetained(e, s, cfg, s'.pendingCfg.value);
        GentleSamePools(e, s, s', s'.pendingCfg.value);
      }
    }
  }
}
