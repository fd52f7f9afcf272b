/** What the policy promises, event by event and over runs, said in terms of pools, containers and CPUs alone. */
module Promises {
  import opened CpuSets
  import opened Topology
  import opened NodeConfigs
  import opened Preparation
  import opened PoolMetrics
  import opened PoolState
  import opened Reconciliation
  import opened Settings
  import opened Runs
  import opened Conflicts
  import AllocSpec

  // What is published

  /** Everybody is told as it is: each container with exclusive CPUs those, any other one the shared CPUs of its pool,
      where the reserved and the default pool share theirs, as everybody else is; each pool's capacity is 1000 for each
      of its CPUs. */
  ghost predicate Tells(pub: Published, s: State)
    requires "reserved" in s.pools && "default" in s.pools
  {
    && pub.defaultCpus == s.pools["reserved"].shared + s.pools["default"].shared
    && (forall a :: a in s.containers ==> a in pub.assignments)
    && (forall a :: a in s.containers && s.containers[a].cpus != {} ==> pub.assignments[a] == s.containers[a].cpus)
    && (forall a :: a in s.containers && s.containers[a].cpus == {}
                    && s.containers[a].pool in {"reserved", "default"} ==>
          pub.assignments[a] == s.pools["reserved"].shared + s.pools["default"].shared)
    && (forall a :: a in s.containers && s.containers[a].cpus == {} && s.containers[a].pool in s.pools
                    && s.containers[a].pool !in {"reserved", "default"} ==>
          pub.assignments[a] == s.pools[s.containers[a].pool].shared)
    && (forall p :: p in s.pools ==>
          p in pub.capacity && pub.capacity[p] == 1000 * (|s.pools[p].shared| + |s.pools[p].pinned|))
  }

  /** Everybody is told as it is, and nothing is told of anybody else; all pools of containers exist. */
  ghost predicate UpToDate(pub: Published, s: State) {
    && "reserved" in s.pools && "default" in s.pools && Tells(pub, s)
    && pub.assignments.Keys == s.containers.Keys && pub.capacity.Keys == s.pools.Keys
    && forall a :: a in s.containers ==> s.containers[a].pool in s.pools
  }

  /** Of containers and pools that do not exist nothing new is told. */
  ghost predicate TellsNobodyElse(pub: Published, s: State, pub': Published) {
    && pub'.assignments.Keys == pub.assignments.Keys + s.containers.Keys
    && pub'.capacity.Keys == pub.capacity.Keys + s.pools.Keys
    && (forall a :: a in pub.assignments && a !in s.containers ==> pub'.assignments[a] == pub.assignments[a])
    && (forall p :: p in pub.capacity && p !in s.pools ==> pub'.capacity[p] == pub.capacity[p])
  }

  /** Publishing tells everybody as it is, and of anybody else what was told before. */
  lemma PublishTells(pub: Published, s: State)
    requires RESERVED in s.pools && DEFAULT in s.pools
    ensures Tells(Publish(pub, s), s) && TellsNobodyElse(pub, s, Publish(pub, s))
  {
    hide *;
    PublishedParts(pub, s);
    PartsTell(pub, s, Publish(pub, s));
  }

  lemma PartsTell(pub: Published, s: State, pub': Published)
    requires RESERVED in s.pools && DEFAULT in s.pools
    requires pub'.defaultCpus == s.pools["reserved"].shared + s.pools["default"].shared
    requires pub'.assignments.Keys == pub.assignments.Keys + s.containers.Keys
    requires pub'.capacity.Keys == pub.capacity.Keys + s.pools.Keys
    requires forall a :: a in pub'.assignments ==>
               pub'.assignments[a] ==
               if a !in s.containers then pub.assignments[a]
               else if s.containers[a].cpus != {} then s.containers[a].cpus
               else if s.containers[a].pool in {"reserved", "default"} then
                 s.pools["reserved"].shared + s.pools["default"].shared
               else if s.containers[a].pool in s.pools then s.pools[s.containers[a].pool].shared
               else {}
    requires forall p :: p in pub'.capacity ==>
               pub'.capacity[p] ==
               if p !in s.pools then pub.capacity[p] else 1000 * (|s.pools[p].shared| + |s.pools[p].pinned|)
    ensures Tells(pub', s) && TellsNobodyElse(pub, s, pub')
  {
  }

  lemma PublishedParts(pub: Published, s: State)
    requires RESERVED in s.pools && DEFAULT in s.pools
    ensures Publish(pub, s).defaultCpus == s.pools["reserved"].shared + s.pools["default"].shared
    ensures Publish(pub, s).assignments.Keys == pub.assignments.Keys + s.containers.Keys
    ensures Publish(pub, s).capacity.Keys == pub.capacity.Keys + s.pools.Keys
    ensures forall a :: a in Publish(pub, s).assignments ==>
              Publish(pub, s).assignments[a] ==
              if a !in s.containers then pub.assignments[a]
              else if s.containers[a].cpus != {} then s.containers[a].cpus
              else if s.containers[a].pool in {"reserved", "default"} then
                s.pools["reserved"].shared + s.pools["default"].shared
              else if s.containers[a].pool in s.pools then s.pools[s.containers[a].pool].shared
              else {}
    ensures forall p :: p in Publish(pub, s).capacity ==>
              Publish(pub, s).capacity[p] ==
              if p !in s.pools then pub.capacity[p] else 1000 * (|s.pools[p].shared| + |s.pools[p].pinned|)
  {
    forall a | a in s.containers
      ensures ContainerCpuSet(s, s.containers[a]) ==
              if s.containers[a].cpus != {} then s.containers[a].cpus
              else if s.containers[a].pool in {"reserved", "default"} then
                s.pools["reserved"].shared + s.pools["default"].shared
              else if s.containers[a].pool in s.pools then s.pools[s.containers[a].pool].shared
              else {}
    {
      SharedTogether(s);
    }
    SharedTogether(s);
    hide ContainerCpuSet;
  }

  lemma SharedTogether(s: State)
    requires RESERVED in s.pools && DEFAULT in s.pools
    ensures PoolCpuSet(s, DEFAULT) == s.pools["reserved"].shared + s.pools["default"].shared
    ensures PoolCpuSet(s, RESERVED) == s.pools["reserved"].shared + s.pools["default"].shared
  {
    assert s.pools["default"].shared + s.pools["reserved"].shared ==
           s.pools["reserved"].shared + s.pools["default"].shared;
  }

  lemma FreshIs(w: World)
    requires Consistent(w.s) && Fresh(w)
    ensures UpToDate(w.pub, w.s)
  {
    hide Separated, Accounted, ConfigCurrent, ExpectedCache;
  }

  /** After every removal and every successful addition everything is published as it is, and stays so until a
      configuration is accepted. */
  lemma PublishedOverRuns(e: Env, ws: seq<World>, evs: seq<Event>, i: nat, j: nat)
    requires ValidEnv(e) && Run(e, ws, evs) && WorldOk(e, ws[0]) && i <= j < |ws| && JustPublished(ws, evs, i)
    requires forall k :: i <= k < j ==> !Reconfigures(e, ws[k], evs[k])
    ensures UpToDate(ws[j].pub, ws[j].s)
  {
    hide *;
    RunLength(e, ws, evs);
    FreshOverRuns(e, ws, evs, i, j);
    RunKeeps(e, ws, evs, j);
    WorldIs(e, ws[j]);
    FreshIs(ws[j]);
  }

  // What is kept apart

  /** In every state of every run: a container's exclusive CPUs are pinned ones of its pool, 1000 of its request for
      each, and neither shared ones of any pool nor another container's. */
  lemma ContainersOverRuns(e: Env, ws: seq<World>, evs: seq<Event>, i: nat, a: string)
    requires ValidEnv(e) && Run(e, ws, evs) && WorldOk(e, ws[0]) && i < |ws| && a in ws[i].s.containers
    ensures
      var s := ws[i].s;
      var c := s.containers[a];
      && c.id == a && c.pool in s.pools && c.cpus <= s.pools[c.pool].pinned
      && (c.cpus != {} ==> c.req == 1000 * |c.cpus| && c.pool !in {"reserved", "ignored", "offline", ""})
      && (forall p :: p in s.pools ==> c.cpus !! s.pools[p].shared)
      && (forall b :: b in s.containers && b != a ==> c.cpus !! s.containers[b].cpus)
  {
    hide *;
    RunLength(e, ws, evs);
    RunKeeps(e, ws, evs, i);
    WorldIs(e, ws[i]);
    ContainerIs(ws[i].s, a);
  }

  lemma ContainerIs(s: State, a: string)
    requires Consistent(s) && a in s.containers
    ensures
      var c := s.containers[a];
      && c.id == a && c.pool in s.pools && c.cpus <= s.pools[c.pool].pinned
      && (c.cpus != {} ==> c.req == 1000 * |c.cpus| && c.pool !in {"reserved", "ignored", "offline", ""})
      && (forall p :: p in s.pools ==> c.cpus !! s.pools[p].shared)
      && (forall b :: b in s.containers && b != a ==> c.cpus !! s.containers[b].cpus)
  {
    SharedIsolation(s, a);
    ExclusiveIn(s.containers, a);
    hide Separated, ConfigCurrent, ExpectedCache, Sum, Uses;
  }

  /** In every state of every run: the reserved and the default pool exist, the current configuration names exactly the
      pools there are, which carry it, and no CPU is shared and pinned, or in two pools. */
  lemma PoolsOverRuns(e: Env, ws: seq<World>, evs: seq<Event>, i: nat, p: string, q: string)
    requires ValidEnv(e) && Run(e, ws, evs) && WorldOk(e, ws[0]) && i < |ws| && p in ws[i].s.pools && q in ws[i].s.pools
    ensures
      var s := ws[i].s;
      && "reserved" in s.pools && "default" in s.pools && s.currentCfg.Keys == s.pools.Keys
      && s.pools[p].cfg == Some(s.currentCfg[p]) && s.pools[p].shared !! s.pools[p].pinned
      && (p != q ==> s.pools[p].shared + s.pools[p].pinned !! s.pools[q].shared + s.pools[q].pinned)
  {
    hide *;
    RunLength(e, ws, evs);
    RunKeeps(e, ws, evs, i);
    WorldIs(e, ws[i]);
    PoolIs(ws[i].s, p, q);
  }

  lemma PoolIs(s: State, p: string, q: string)
    requires Consistent(s) && p in s.pools && q in s.pools
    ensures "reserved" in s.pools && "default" in s.pools && s.currentCfg.Keys == s.pools.Keys
    ensures s.pools[p].cfg == Some(s.currentCfg[p]) && s.pools[p].shared !! s.pools[p].pinned
    ensures p != q ==> s.pools[p].shared + s.pools[p].pinned !! s.pools[q].shared + s.pools[q].pinned
  {
    hide ContainersOk, Accounted, ExpectedCache;
  }

  // Pools in use

  /** Whatever else speaks for or against a configuration, it is accepted exactly if it would be without any pools, and
      every pool it drops has no shares given out and no CPUs pinned. */
  lemma DropsOnlyIdleIff(e: Env, s: State, order: seq<string>, s': State, ok: bool)
    requires ValidEnv(e) && s.pendingCfg.Some? && Reconciled(e, s, order, s', ok)
    ensures IsOrder(order, s.pendingCfg.value.Keys)
    ensures
      ok <==>
      && Accepts(e.m, {}, s.pendingCfg.value, order)
      && forall p :: p in s.pools && p !in s.pendingCfg.value ==> s.pools[p].used == 0 && s.pools[p].pinned == {}
  {
    var cfg := s.pendingCfg.value;
    hide Accepted, Rejected, WithReserved, Passes, ScanAll, ValidTopology, NoDeadCore;
    if Busy(s.pools) <= cfg.Keys {
      forall p | p in s.pools && p !in cfg ensures s.pools[p].used == 0 && s.pools[p].pinned == {} {
        assert p !in Busy(s.pools);
      }
    }
  }

  /** A configuration that drops a pool of which a container has exclusive CPUs is rejected, and so is one that drops a
      pool of which shares are given out. */
  lemma InUseIsKept(e: Env, s: State, order: seq<string>, s': State, ok: bool, a: string)
    requires ValidEnv(e) && Sound(s) && s.pendingCfg.Some? && Reconciled(e, s, order, s', ok)
    requires a in s.containers && s.containers[a].pool !in s.pendingCfg.value
    requires s.containers[a].cpus != {} || s.pools[s.containers[a].pool].used != 0
    ensures !ok && s'.containers == s.containers && s'.currentCfg == s.currentCfg && s'.online == s.online
    ensures s'.pendingCfg.Some?
  {
    var p := s.containers[a].pool;
    DropsOnlyIdleIff(e, s, order, s', ok);
    ExclusiveIn(s.containers, a);
    if s.containers[a].cpus != {} {
      assert Pick(s.containers[a].cpus) in s.pools[p].pinned;
    }
    hide Accepted, Accepts, ValidTopology, NoDeadCore, ContainersOk, Separated, Sum, Uses;
  }

  // Configurations are tried

  /** A pool, all empty if it does not exist yet. */
  ghost function PoolBefore(s: State, p: string): PoolView {
    if p in s.pools then s.pools[p] else PoolView({}, {}, 0, None)
  }

  /** A configuration was taken in use: its settings are current and none is pending; the other threads of HT-free pools
      are offline, except CPU 0, and all other CPUs are online; every pool has its CPUs and what it had pinned, with as
      many pinned as before and the same use; and every container is where it was, with as many exclusive CPUs. */
  ghost predicate TakenInUse(m: Machine, s: State, cfg: NodeConfig, reserved: CPUSet, s': State) {
    && s'.pendingCfg == None && Settles(m, cfg, reserved, s'.currentCfg, s'.offlined)
    && s'.online == m.topo.Keys - (OtherThreads(m, cfg, reserved) - {0})
    && s'.pools.Keys == cfg.Keys && s.pools.Keys <= cfg.Keys
    && (forall p :: p in s'.pools ==>
          PoolTaken(PoolBefore(s, p), FinalConfig(m, cfg, reserved, p), s'.pools[p]))
    && s'.containers.Keys == s.containers.Keys
    && (forall a :: a in s.containers ==>
          && s'.containers[a].id == s.containers[a].id && s'.containers[a].pool == s.containers[a].pool
          && s'.containers[a].req == s.containers[a].req
          && |s'.containers[a].cpus| == |s.containers[a].cpus|)
  }

  ghost predicate PoolTaken(pv: PoolView, pc: Config, pv': PoolView) {
    && pv'.cfg == Some(pc) && pc.cpus.Some? && pv'.used == pv.used && |pv'.pinned| == |pv.pinned|
    && pv'.shared !! pv'.pinned && pv'.shared + pv'.pinned == pc.cpus.value + pv.pinned
  }

  /** A configuration was put off: pools, containers, settings, metrics and online CPUs are as they were, and it is
      pending, asking for the same. */
  ghost predicate PutOff(s: State, cfg: NodeConfig, s': State) {
    && s'.pools == s.pools && s'.containers == s.containers && s'.currentCfg == s.currentCfg
    && s'.cache == s.cache && s'.online == s.online
    && s'.pendingCfg.Some? && s'.pendingCfg.value.Keys == cfg.Keys
    && forall p :: p in cfg ==>
         && s'.pendingCfg.value[p].(cpus := cfg[p].cpus) == cfg[p]
         && (p != "reserved" && cfg[p].cpuCount != -1 ==> s'.pendingCfg.value[p] == cfg[p])
  }

  /** A configuration is feasible, and drops no pool in use. */
  ghost predicate CanTakeInUse(m: Machine, pools: map<string, PoolView>, cfg: NodeConfig) {
    && (exists reserved :: AreReserved(m, cfg, reserved) && Feasible(m, cfg, reserved))
    && forall p :: p in pools && p !in cfg ==> pools[p].used == 0 && pools[p].pinned == {}
  }

  /** Trying a configuration takes it in use or puts it off, and publishes nothing. */
  lemma ConfigureMeans(e: Env, w: World, cfg: NodeConfig, w': World)
    requires ValidEnv(e) && WorldOk(e, w) && Mild(e, w.s, cfg) && Tried(e, w, cfg, w')
    ensures w'.pub == w.pub
    ensures if CanTakeInUse(e.m, w.s.pools, cfg)
            then exists reserved :: AreReserved(e.m, cfg, reserved) && TakenInUse(e.m, w.s, cfg, reserved, w'.s)
            else PutOff(w.s, cfg, w'.s)
  {
    var s := w.s.(pendingCfg := Some(cfg));
    var order, ok :| Reconciled(e, s, order, w'.s, ok);
    hide *;
    WorldIs(e, w);
    WorldIsOnline(e, w);
    TriedKeeps(e, w, cfg, w');
    MildPending(e, w.s, cfg);
    ConsistentIsSteady(s);
    SteadyIsSound(s);
    Retried(e, s, cfg, order, w'.s, ok);
    SameBefore(e.m, s, w.s, cfg, w'.s);
  }

  lemma SameBefore(m: Machine, s: State, t: State, cfg: NodeConfig, s': State)
    requires s == t.(pendingCfg := Some(cfg))
    ensures PutOff(s, cfg, s') ==> PutOff(t, cfg, s')
    ensures forall reserved :: TakenInUse(m, s, cfg, reserved, s') ==> TakenInUse(m, t, cfg, reserved, s')
  {
    hide PoolTaken, FinalConfig, OtherThreads, Settles;
    assert forall p :: PoolBefore(t, p) == PoolBefore(s, p);
  }

  lemma MildIs(e: Env, s: State, cfg: NodeConfig)
    requires ValidEnv(e) && Mild(e, s, cfg)
    ensures Ready(cfg) && NoneOverlooked(cfg) && ("" in cfg ==> cfg[""].cpuCount != -1) && ValidMachine(e.m)
  {
    hide Acceptable, Gentle, ValidTopology, NoDeadCore;
  }

  lemma VerdictIs(m: Machine, pools: map<string, PoolView>, cfg: NodeConfig)
    requires ValidMachine(m) && Ready(cfg) && ("" in cfg ==> cfg[""].cpuCount != -1)
    ensures Acceptable(m, Busy(pools), cfg) <==> CanTakeInUse(m, pools, cfg)
  {
    VerdictMeans(m, pools, cfg);
    hide AreReserved, Feasible, Acceptable, Busy, ValidTopology;
  }

  lemma ReservedThen(m: Machine, cfg: NodeConfig) returns (reserved: CPUSet)
    requires ValidMachine(m) && Ready(cfg) && WithReserved(m, cfg).Some?
    ensures AreReserved(m, cfg, reserved)
  {
    ReservedIff(m, cfg, {});
    reserved := WithReserved(m, cfg).value["reserved"].cpus.value;
    ReservedIff(m, cfg, reserved);
  }

  lemma RejectedAsksSame(e: Env, s: State, cfg: NodeConfig, s': State)
    requires ValidEnv(e) && Ready(cfg) && Rejected(e, s, cfg, s')
    ensures s'.pendingCfg.Some? && s'.pendingCfg.value.Keys == cfg.Keys
    ensures forall p :: p in cfg ==>
              && s'.pendingCfg.value[p].(cpus := cfg[p].cpus) == cfg[p]
              && (p != "reserved" && cfg[p].cpuCount != -1 ==> s'.pendingCfg.value[p] == cfg[p])
  {
    ReservedIff(e.m, cfg, {});
    hide WithReserved, ValidTopology, NoDeadCore, Ready;
  }

  lemma PutOffIs(s: State, cfg: NodeConfig, s': State)
    requires s'.pools == s.pools && s'.containers == s.containers && s'.currentCfg == s.currentCfg
    requires s'.cache == s.cache && s'.online == s.online
    requires s'.pendingCfg.Some? && s'.pendingCfg.value.Keys == cfg.Keys
    requires forall p :: p in cfg ==>
               && s'.pendingCfg.value[p].(cpus := cfg[p].cpus) == cfg[p]
               && (p != "reserved" && cfg[p].cpuCount != -1 ==> s'.pendingCfg.value[p] == cfg[p])
    ensures PutOff(s, cfg, s')
  {
  }

  lemma PoolsTaken(e: Env, s: State, cfg: NodeConfig, pools: map<string, PoolView>, s': State)
    requires FullConfig(cfg) && s.pools.Keys <= cfg.Keys && ActivatesTo(s.pools, cfg, pools)
    requires Reallocated(e, pools, s.containers, s'.pools, s'.containers)
    ensures s'.pools.Keys == cfg.Keys && s'.containers.Keys == s.containers.Keys
    ensures forall p :: p in cfg ==> PoolTaken(PoolBefore(s, p), cfg[p], s'.pools[p])
    ensures forall a :: a in s.containers ==>
              && s'.containers[a].id == s.containers[a].id && s'.containers[a].pool == s.containers[a].pool
              && s'.containers[a].req == s.containers[a].req
              && |s'.containers[a].cpus| == |s.containers[a].cpus|
  {
    hide ContainersOk, Exclusive, PoolTaken, Footprint, NewCpus, ReallocatedPool;
    forall p | p in cfg ensures PoolTaken(PoolBefore(s, p), cfg[p], s'.pools[p]) {
      OnePoolTaken(e, s, cfg, pools, s', p);
    }
  }

  lemma OnePoolTaken(e: Env, s: State, cfg: NodeConfig, pools: map<string, PoolView>, s': State, p: string)
    requires FullConfig(cfg) && s.pools.Keys <= cfg.Keys && ActivatesTo(s.pools, cfg, pools) && p in cfg
    requires Reallocated(e, pools, s.containers, s'.pools, s'.containers)
    ensures p in s'.pools && PoolTaken(PoolBefore(s, p), cfg[p], s'.pools[p])
  {
    hide ContainersOk, Exclusive;
    ActivatedFootprint(s.pools, cfg, pools, p);
    assert ReallocatedPool(e, pools[p], s'.pools[p], Exclusive(s'.containers, p));
  }

  lemma TakenIs(e: Env, s: State, cfg: NodeConfig, reserved: CPUSet, s': State)
    requires s'.pendingCfg == None && Settles(e.m, cfg, reserved, s'.currentCfg, s'.offlined)
    requires s'.online <= e.m.topo.Keys && e.m.topo.Keys - s'.online == s'.offlined - {0}
    requires s'.pools.Keys == s'.currentCfg.Keys && s.pools.Keys <= s'.currentCfg.Keys
    requires forall p :: p in s'.currentCfg ==> PoolTaken(PoolBefore(s, p), s'.currentCfg[p], s'.pools[p])
    requires s'.containers.Keys == s.containers.Keys
    requires forall a :: a in s.containers ==>
               && s'.containers[a].id == s.containers[a].id && s'.containers[a].pool == s.containers[a].pool
               && s'.containers[a].req == s.containers[a].req
               && |s'.containers[a].cpus| == |s.containers[a].cpus|
    ensures TakenInUse(e.m, s, cfg, reserved, s')
  {
    hide PoolTaken, FinalConfig, OtherThreads;
    assert s'.online == e.m.topo.Keys - (s'.offlined - {0});
  }

  /** An accepted gentle configuration is taken in use. */
  lemma AcceptedTakes(e: Env, s: State, cfg: NodeConfig, order: seq<string>, s': State, reserved: CPUSet)
    requires ValidEnv(e) && Sound(s) && Gentle(e, s, cfg) && 0 in s.online && s.online <= e.m.topo.Keys
    requires IsOrder(order, cfg.Keys) && Accepts(e.m, Busy(s.pools), cfg, order) && Accepted(e, s, cfg, order, s')
    requires AreReserved(e.m, cfg, reserved)
    ensures TakenInUse(e.m, s, cfg, reserved, s')
  {
    GentleIsReady(e, s, cfg);
    hide *;
    AcceptedMeans(e, s, cfg, order, s');
    ResolvedSettles(e.m, cfg, reserved);
    var pools := AcceptedReallocates(e, s, cfg, order, s');
    GentleIsSensible(e, s, cfg);
    ExactlyOfflined(e, s, cfg, order, s');
    PoolsTaken(e, s, s'.currentCfg, pools, s');
    TakenIs(e, s, cfg, reserved, s');
  }

  lemma GentleIsReady(e: Env, s: State, cfg: NodeConfig)
    requires ValidEnv(e) && Gentle(e, s, cfg)
    ensures ValidMachine(e.m) && Ready(cfg) && NoneOverlooked(cfg) && ("" in cfg ==> cfg[""].cpuCount != -1)
  {
    hide KeepsApart, LeavesEnough, WithReserved, ValidTopology, NoDeadCore;
  }

  // Containers come and go

  /** The state after a pool and a container were changed, and the metrics of that pool. */
  ghost predicate OnlyPool(s: State, p: string, s': State) {
    && s'.pools.Keys == s.pools.Keys && (forall q :: q in s.pools && q != p ==> s'.pools[q] == s.pools[q])
    && s'.currentCfg == s.currentCfg && s'.pendingCfg == s.pendingCfg && s'.online == s.online
  }

  /** A container that does not ask for whole CPUs with an equal limit, or asks for the reserved pool, gets a share: its
      request is charged to the pool, whose CPUs stay as they are. The pools for ignored and offline CPUs give nothing,
      and an unknown pool nothing but an error. */
  lemma AddShared(e: Env, w: World, id: string, pool: string, req: int, lim: int, w': World)
    requires ValidEnv(e) && WorldOk(e, w) && Step(e, w, Add(id, pool, req, lim), w') && id !in w.s.containers
    requires pool == "reserved" || !(req != 0 && req == lim && req % 1000 == 0)
    ensures pool in {"ignored", "offline"} ==> w'.s == w.s
    ensures pool !in {"ignored", "offline"} && pool !in w.s.pools ==> w' == w
    ensures pool !in {"ignored", "offline"} && pool in w.s.pools ==>
              && w'.s.containers == w.s.containers[id := Container(id, pool, {}, req)]
              && OnlyPool(w.s, pool, w'.s)
              && w'.s.pools[pool] == w.s.pools[pool].(used := w.s.pools[pool].used + req)
              && UpToDate(w'.pub, w'.s)
  {
    hide *;
    var ok := AddedIs(e, w, id, pool, req, lim, w');
    var result := SharedIs(e, w.s, id, pool, req, lim, w'.s, ok);
    SharedMeans(w.s, id, pool, req, w'.s, ok, result);
    if !ok {
      SameWorld(w, w');
    }
  }

  lemma SameWorld(w: World, w': World)
    requires w'.s == w.s && w'.pub == w.pub
    ensures w' == w
  {
  }

  /** An addition succeeded, and everything was published; or it failed, and nothing was. */
  lemma AddedIs(e: Env, w: World, id: string, pool: string, req: int, lim: int, w': World) returns (ok: bool)
    requires ValidEnv(e) && WorldOk(e, w) && Step(e, w, Add(id, pool, req, lim), w') && id !in w.s.containers
    ensures Took(e, w.s, id, pool, req, lim, w'.s, ok)
    ensures if ok then UpToDate(w'.pub, w'.s) else w'.pub == w.pub
  {
    AddedKeeps(e, w, id, pool, req, lim, w');
    WorldIs(e, w);
    WorldIs(e, w');
    ok :| && Took(e, w.s, id, pool, req, lim, w'.s, ok)
          && if ok then RESERVED in w'.s.pools && DEFAULT in w'.s.pools && w'.pub == Publish(w.pub, w'.s)
             else w'.pub == w.pub;
    hide WorldOk, Consistent, HardwareOk, Took, Publish, Snapshot, UpToDate, Faithful;
    if ok {
      AddedIsFresh(e, w, id, pool, req, lim, w', ok);
      FreshIs(w');
    }
  }

  lemma AddedIsFresh(e: Env, w: World, id: string, pool: string, req: int, lim: int, w': World, ok: bool)
    requires ValidEnv(e) && Consistent(w.s) && Consistent(w'.s) && Faithful(w.pub, w.s) && id !in w.s.containers
    requires Took(e, w.s, id, pool, req, lim, w'.s, ok) && ok
    requires RESERVED in w'.s.pools && DEFAULT in w'.s.pools && w'.pub == Publish(w.pub, w'.s)
    ensures Fresh(w')
  {
    TookKeeps(e, w.s, id, pool, req, lim, w'.s, ok);
    FaithfulKeys(w.pub, w.s);
    hide Consistent, Took, Publish, Snapshot, Faithful;
    PublishIsSnapshot(w.pub, w'.s);
  }

  lemma SharedMeans(s: State, id: string, pool: string, req: int, s': State, ok: bool, result: CPUSet)
    requires TookShare(s, id, pool, req, s', ok, result)
    ensures pool in {"ignored", "offline"} ==> s' == s
    ensures pool !in {"ignored", "offline"} && pool !in s.pools ==> !ok && s' == s
    ensures pool !in {"ignored", "offline"} && pool in s.pools ==>
              && ok && s'.containers == s.containers[id := Container(id, pool, {}, req)]
              && OnlyPool(s, pool, s') && s'.pools[pool] == s.pools[pool].(used := s.pools[pool].used + req)
  {
    hide Measure;
  }

  lemma SharedIs(e: Env, s: State, id: string, pool: string, req: int, lim: int, s': State, ok: bool)
    returns (result: CPUSet)
    requires ValidEnv(e) && Took(e, s, id, pool, req, lim, s', ok)
    requires pool == "reserved" || !(req != 0 && req == lim && req % 1000 == 0)
    ensures TookShare(s, id, pool, req, s', ok, result)
  {
    hide TookShare;
    if AsksExclusive(req, lim) {
      result :| TookCpus(e, s, id, pool, req / 1000, s', ok, result);
      assert 1000 * (req / 1000) == req;
    } else {
      result :| TookShare(s, id, pool, req, s', ok, result);
    }
  }

  /** A container that asks for whole CPUs, with an equal limit, from another than the reserved pool: it gets that many
      of the shared CPUs of its pool, of the default one if it names none. It gets all of them if it asks for all; it
      gets nothing, and the usable ones are lost to the pool, if fewer are usable than it asks for. The pools for
      ignored and offline CPUs, an unknown pool, and one with too few CPUs give nothing but an error. */
  lemma AddExclusive(e: Env, w: World, id: string, pool: string, n: int, w': World)
    requires ValidEnv(e) && WorldOk(e, w) && Step(e, w, Add(id, pool, 1000 * n, 1000 * n), w') && id !in w.s.containers
    requires pool != "reserved" && n != 0
    ensures
      var p := if pool == "" then "default" else pool;
      if p in {"ignored", "offline"} || p !in w.s.pools || |w.s.pools[p].shared| < n then w' == w else
      && OnlyPool(w.s, p, w'.s) && UpToDate(w'.pub, w'.s)
      && id in w'.s.containers && w'.s.containers == w.s.containers[id := w'.s.containers[id]]
      && var cpus := w'.s.containers[id].cpus;
         && w'.s.containers[id] == Container(id, p, cpus, 1000 * |cpus|)
         && Given(e, w.s.pools[p], n, cpus, w'.s.pools[p])
  {
    hide *;
    var ok := AddedIs(e, w, id, pool, 1000 * n, 1000 * n, w');
    var result := ExclusiveIsTaken(e, w.s, id, pool, n, w'.s, ok);
    ExclusiveMeans(e, w.s, id, pool, n, w'.s, ok, result);
    if !ok {
      SameWorld(w, w');
    }
  }

  /** A pool gave exclusive CPUs. */
  ghost predicate Given(e: Env, pv: PoolView, n: int, cpus: CPUSet, pv': PoolView) {
    var usable := set c | c in pv.shared && c in e.m.topo && c !in e.allocOffline;
    && pv'.used == pv.used && pv'.cfg == pv.cfg && pv'.pinned == pv.pinned + cpus
    && if |pv.shared| == n then cpus == pv.shared && pv'.shared == {}
       else if 0 <= n <= |usable| then |cpus| == n && cpus <= usable && pv'.shared == pv.shared - cpus
       else cpus == {} && pv'.shared == pv.shared - usable
  }

  lemma ExclusiveIsTaken(e: Env, s: State, id: string, pool: string, n: int, s': State, ok: bool)
    returns (result: CPUSet)
    requires ValidEnv(e) && Took(e, s, id, pool, 1000 * n, 1000 * n, s', ok) && n != 0
    ensures TookCpus(e, s, id, pool, n, s', ok, result)
  {
    hide TookCpus, TookShare, ValidEnv;
    assert (1000 * n) % 1000 == 0 && 1000 * n / 1000 == n;
    result :| TookCpus(e, s, id, pool, n, s', ok, result);
  }

  lemma ExclusiveMeans(e: Env, s: State, id: string, pool: string, n: int, s': State, ok: bool, result: CPUSet)
    requires ValidEnv(e) && TookCpus(e, s, id, pool, n, s', ok, result) && pool != "reserved"
    ensures
      var p := if pool == "" then "default" else pool;
      if p in {"ignored", "offline"} || p !in s.pools || |s.pools[p].shared| < n then !ok && s' == s else
      && ok && OnlyPool(s, p, s')
      && s'.containers == s.containers[id := Container(id, p, result, 1000 * |result|)]
      && Given(e, s.pools[p], n, result, s'.pools[p])
  {
    var p := if pool == "" then "default" else pool;
    if !(p in {"ignored", "offline"} || p !in s.pools) {
      var left := TookFrom(e, s, id, pool, n, s', ok, result);
      hide TookCpus, Measure;
      GivenIs(e, s.pools[p], n, result, left, ok);
    }
  }

  lemma GivenIs(e: Env, pv: PoolView, n: int, result: CPUSet, left: CPUSet, ok: bool)
    requires ValidEnv(e) && AllocSpec.Outcome(e.m.topo, e.allocOffline, pv.shared, n, result, left, ok)
    ensures ok <==> n <= |pv.shared|
    ensures ok ==> Given(e, pv, n, result, pv.(shared := left, pinned := pv.pinned + result))
    ensures !ok ==> result == {} && left == pv.shared
  {
    assert AllocSpec.Usable(e.m.topo, e.allocOffline, pv.shared) ==
           set c | c in pv.shared && c in e.m.topo && c !in e.allocOffline;
    hide AllocSpec.FirstFit;
  }

  /** A container's exclusive CPUs, or its share, were given back to its pool, and it was forgotten. */
  ghost predicate GaveBack(s: State, id: string, s': State)
    requires id in s.containers
  {
    var c := s.containers[id];
    && c.pool in s.pools && OnlyPool(s, c.pool, s') && s'.containers == s.containers - {id}
    && var pv, pv' := s.pools[c.pool], s'.pools[c.pool];
       && pv'.cfg == pv.cfg && pv'.shared == pv.shared + c.cpus && pv'.pinned == pv.pinned - c.cpus
       && pv'.used == if c.cpus == {} then pv.used - c.req else pv.used
  }

  /** Removing a container gives back what it had, then takes the pending configuration in use or puts it off again, and
      publishes everything. */
  lemma RemoveMeans(e: Env, w: World, id: string, w': World)
    requires ValidEnv(e) && WorldOk(e, w) && MildEvent(e, w.s, Remove(id)) && Step(e, w, Remove(id), w')
    requires id in w.s.containers
    ensures UpToDate(w'.pub, w'.s)
    ensures exists s ::
              && GaveBack(w.s, id, s)
              && if w.s.pendingCfg.None? then w'.s == s
                 else if CanTakeInUse(e.m, s.pools, w.s.pendingCfg.value)
                 then exists reserved ::
                   && AreReserved(e.m, w.s.pendingCfg.value, reserved)
                   && TakenInUse(e.m, s, w.s.pendingCfg.value, reserved, w'.s)
                 else PutOff(s, w.s.pendingCfg.value, w'.s)
  {
    hide *;
    WorldIs(e, w);
    WorldIsOnline(e, w);
    var order, ok := RemovedIs(e, w, id, w');
    ConsistentIsSteady(w.s);
    SteadyIsSound(w.s);
    var s := ReleasedThen(e, w.s, id, order, w'.s, ok);
    assert GaveBack(w.s, id, s);
    if w.s.pendingCfg.Some? {
      Retried(e, s, w.s.pendingCfg.value, order, w'.s, ok);
    }
  }

  /** A removal released the container, and everything was published. */
  lemma RemovedIs(e: Env, w: World, id: string, w': World) returns (order: seq<string>, ok: bool)
    requires ValidEnv(e) && WorldOk(e, w) && MildEvent(e, w.s, Remove(id)) && Step(e, w, Remove(id), w')
    ensures ReleasedTo(e, w.s, id, order, w'.s, ok) && UpToDate(w'.pub, w'.s)
  {
    order, ok :| ReleasedTo(e, w.s, id, order, w'.s, ok);
    StepIsRemoved(e, w, id, w');
    hide *;
    RemovedKeeps(e, w, id, w');
    WorldIs(e, w');
    SnapshotIsFresh(w');
    FreshIs(w');
  }

  lemma StepIsRemoved(e: Env, w: World, id: string, w': World)
    requires ValidEnv(e) && Step(e, w, Remove(id), w')
    ensures Removed(e, w, id, w')
  {
  }

  lemma SnapshotIsFresh(w: World)
    requires Consistent(w.s)
    requires RESERVED in w.s.pools && DEFAULT in w.s.pools ==> w.pub == Snapshot(w.s)
    ensures Fresh(w)
  {
    hide Snapshot, ExpectedCache, Sound, ConfigCurrent;
  }

  lemma ReleasedThen(e: Env, s: State, id: string, order: seq<string>, s': State, ok: bool) returns (r: State)
    requires ValidEnv(e) && Consistent(s) && Sound(s) && id in s.containers && MildEvent(e, s, Remove(id))
    requires ReleasedTo(e, s, id, order, s', ok)
    ensures GaveBack(s, id, r) && s.containers[id].pool in s.pools && r == Released(s, id) && r.online == s.online
    ensures s.pendingCfg.None? ==> s' == r
    ensures s.pendingCfg.Some? ==>
              && r.pendingCfg == s.pendingCfg && Sound(r) && Steady(r) && Mild(e, r, s.pendingCfg.value)
              && Reconciled(e, r, order, s', ok)
  {
    PoolOf(s, id);
    GivesBack(s, id);
    if s.pendingCfg.Some? {
      r := ReleasedState(e, s, id, s.pendingCfg.value, order, s', ok);
    } else {
      r := Released(s, id);
    }
    hide Sound, Consistent, Steady, Mild, GaveBack, Accepts, Accepted, Rejected;
  }

  lemma GivesBack(s: State, id: string)
    requires Sound(s) && id in s.containers && s.containers[id].pool in s.pools
    ensures GaveBack(s, id, Released(s, id)) && Released(s, id).online == s.online
    ensures Released(s, id).pendingCfg == s.pendingCfg
  {
    hide Sound, Measure;
    var c := s.containers[id];
    var pv := s.pools[c.pool];
    if c.cpus == {} {
      assert pv.shared + {} == pv.shared && pv.pinned - {} == pv.pinned;
    }
  }

  /** A pool is used by nobody but perhaps the given container. */
  ghost predicate OnlyUser(s: State, id: string, p: string)
    requires id in s.containers && p in s.pools
  {
    var c := s.containers[id];
    && s.pools[p].pinned == (if p == c.pool then c.cpus else {})
    && s.pools[p].used == if p == c.pool && c.cpus == {} then c.req else 0
  }

  /** Once the container is released, the pools that a configuration drops are not in use any more. */
  ghost predicate LastUser(s: State, id: string, cfg: NodeConfig)
    requires id in s.containers
  {
    forall p :: p in s.pools && p !in cfg ==> OnlyUser(s, id, p)
  }

  /** With a configuration pending, a removal takes it in use exactly if it is feasible and the container was the last
      user of the pools it drops; otherwise it stays pending. */
  lemma RemoveRetries(e: Env, w: World, id: string, cfg: NodeConfig, w': World)
    requires ValidEnv(e) && WorldOk(e, w) && MildEvent(e, w.s, Remove(id)) && Step(e, w, Remove(id), w')
    requires id in w.s.containers && w.s.pendingCfg == Some(cfg)
    ensures w'.s.pendingCfg == None <==>
            LastUser(w.s, id, cfg) && exists reserved :: AreReserved(e.m, cfg, reserved) && Feasible(e.m, cfg, reserved)
  {
    hide *;
    WorldIs(e, w);
    WorldIsOnline(e, w);
    ConsistentIsSteady(w.s);
    SteadyIsSound(w.s);
    var order, ok := RemovedIs(e, w, id, w');
    var s := ReleasedState(e, w.s, id, cfg, order, w'.s, ok);
    LastUserIff(w.s, id, cfg, s);
    CanTakeIs(e.m, s.pools, cfg);
    Retried(e, s, cfg, order, w'.s, ok);
    TakenOrPutOff(e.m, s, cfg, w'.s);
  }

  lemma ReleasedState(e: Env, s: State, id: string, cfg: NodeConfig, order: seq<string>, s': State, ok: bool)
    returns (r: State)
    requires ValidEnv(e) && Consistent(s) && Sound(s) && id in s.containers && s.pendingCfg == Some(cfg)
    requires MildEvent(e, s, Remove(id)) && ReleasedTo(e, s, id, order, s', ok)
    ensures s.containers[id].pool in s.pools && r == Released(s, id)
    ensures Sound(r) && Mild(e, r, cfg) && Steady(r) && r.pendingCfg == Some(cfg) && r.online == s.online
    ensures Reconciled(e, r, order, s', ok)
  {
    PoolOf(s, id);
    ReleasedKeeps(s, id);
    r := Released(s, id);
    hide Separated, Accounted, ConfigCurrent, ExpectedCache, Measure, Mild, Reconciled, ContainersOk;
  }

  lemma LastUserIff(s: State, id: string, cfg: NodeConfig, r: State)
    requires Sound(s) && id in s.containers && s.containers[id].pool in s.pools && r == Released(s, id)
    ensures LastUser(s, id, cfg) <==>
            forall p :: p in r.pools && p !in cfg ==> r.pools[p].used == 0 && r.pools[p].pinned == {}
  {
    ReleasedKeys(s, id);
    hide Released, Sound, OnlyUser;
    forall p | p in s.pools ensures r.pools[p].used == 0 && r.pools[p].pinned == {} <==> OnlyUser(s, id, p) {
      PoolWithout(s, id, p);
    }
  }

  lemma ReleasedKeys(s: State, id: string)
    requires id in s.containers && s.containers[id].pool in s.pools
    ensures Released(s, id).pools.Keys == s.pools.Keys
  {
    hide Measure;
  }

  lemma PoolWithout(s: State, id: string, p: string)
    requires Sound(s) && id in s.containers && s.containers[id].pool in s.pools && p in s.pools
    ensures p in Released(s, id).pools
    ensures Released(s, id).pools[p].used == 0 && Released(s, id).pools[p].pinned == {} <==> OnlyUser(s, id, p)
  {
    var c, pv := s.containers[id], s.pools[p];
    ReleasedPool(s, id);
    OwnPinned(s, id);
    hide Sound, Measure;
    if p == c.pool {
      NothingElse(pv.pinned, c.cpus);
    }
  }

  lemma OwnPinned(s: State, id: string)
    requires Sound(s) && id in s.containers && s.containers[id].pool in s.pools
    ensures s.containers[id].cpus <= s.pools[s.containers[id].pool].pinned
  {
    ExclusiveIn(s.containers, id);
    hide Separated, ContainersOk, Sum, Uses;
  }

  lemma NothingElse(all: CPUSet, some: CPUSet)
    requires some <= all
    ensures all - some == {} <==> all == some
  {
    if all - some == {} {
      forall c | c in all ensures c in some {
        assert c !in all - some;
      }
    }
  }

  lemma Retried(e: Env, s: State, cfg: NodeConfig, order: seq<string>, s': State, ok: bool)
    requires ValidEnv(e) && Sound(s) && Steady(s) && Mild(e, s, cfg) && s.pendingCfg == Some(cfg)
    requires 0 in s.online && s.online <= e.m.topo.Keys && Reconciled(e, s, order, s', ok)
    ensures if CanTakeInUse(e.m, s.pools, cfg)
            then exists reserved :: AreReserved(e.m, cfg, reserved) && TakenInUse(e.m, s, cfg, reserved, s')
            else PutOff(s, cfg, s')
  {
    hide *;
    MildIs(e, s, cfg);
    VerdictIs(e.m, s.pools, cfg);
    var accepts := ReconciledAs(e, s, order, s', ok);
    NoneOverlookedAgrees(e.m, Busy(s.pools), cfg);
    PreparationMeans(e.m, Busy(s.pools), cfg, order);
    if accepts {
      MildAccepted(e, s, cfg, order);
      AcceptableIsSetUp(e.m, Busy(s.pools), cfg);
      var reserved := ReservedThen(e.m, cfg);
      AcceptedTakes(e, s, cfg, order, s', reserved);
      assert AreReserved(e.m, cfg, reserved) && TakenInUse(e.m, s, cfg, reserved, s');
    } else {
      RejectedKeeps(e, s, cfg, s');
      RejectedAsksSame(e, s, cfg, s');
      PutOffIs(s, cfg, s');
    }
  }

  lemma CanTakeIs(m: Machine, pools: map<string, PoolView>, cfg: NodeConfig)
    ensures CanTakeInUse(m, pools, cfg) <==>
            && (exists reserved :: AreReserved(m, cfg, reserved) && Feasible(m, cfg, reserved))
            && forall p :: p in pools && p !in cfg ==> pools[p].used == 0 && pools[p].pinned == {}
  {
    hide AreReserved, Feasible;
  }

  lemma TakenOrPutOff(m: Machine, s: State, cfg: NodeConfig, s': State)
    ensures PutOff(s, cfg, s') ==> s'.pendingCfg.Some?
    ensures forall reserved :: TakenInUse(m, s, cfg, reserved, s') ==> s'.pendingCfg == None
  {
    hide PoolTaken, FinalConfig, OtherThreads, Settles;
  }
}
