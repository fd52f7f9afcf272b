/** Taking a pending configuration in use: activation, reallocation of exclusive containers, and rollback. */
module Reconciliation {
  import opened CpuSets
  import opened Topology
  import opened NodeConfigs
  import opened Preparation
  import opened PoolMetrics
  import opened PoolState
  import AllocSpec

  /** Pools in use, which a new configuration must not drop. */
  ghost function Busy(pools: map<string, PoolView>): set<string> {
    set p | p in pools && (pools[p].used != 0 || pools[p].pinned != {})
  }

  /** The configuration a pool has once the new configuration is prepared: pools the new configuration does
      not name keep theirs, and so does one named "" that claims leftovers. */
  ghost function NewConfig(pools: map<string, PoolView>, cfg: NodeConfig, p: string): Option<Config> {
    if p in cfg && !(p == "" && Claims(cfg[p])) then Some(cfg[p])
    else if p in pools then pools[p].cfg
    else None
  }

  /** The pools after activation: shared CPUs are the configured ones that are not pinned. */
  ghost function Activated(pools: map<string, PoolView>, cfg: NodeConfig): map<string, PoolView> {
    map p | p in pools.Keys + cfg.Keys && NewConfig(pools, cfg, p).Some? ::
      var pc := NewConfig(pools, cfg, p);
      var cpus := if pc.value.cpus.Some? then pc.value.cpus.value else {};
      if p in pools then PoolView(cpus - pools[p].pinned, pools[p].pinned, pools[p].used, pc)
      else PoolView(cpus, {}, 0, pc)
  }

  /** The pools while a configuration is being prepared: the named ones exist, the settled ones carry their new
      configuration, and nothing else changed. */
  ghost predicate Preparing(pools0: map<string, PoolView>, cfg: NodeConfig, names: set<string>, settled: set<string>,
                            pools: map<string, PoolView>)
  {
    && settled <= names <= cfg.Keys
    && pools.Keys == pools0.Keys + names
    && forall p :: p in pools ==>
         var c := if p in settled then Some(cfg[p]) else if p in pools0 then pools0[p].cfg else None;
         if p in pools0 then pools[p] == pools0[p].(cfg := c)
         else pools[p] == PoolView(pools[p].shared, {}, 0, c)
  }

  /** What is left of the old pools if preparing fails: all but their configuration. */
  ghost predicate OnlyConfigs(pools0: map<string, PoolView>, pools: map<string, PoolView>) {
    pools0.Keys <= pools.Keys && forall p :: p in pools0 ==> pools[p] == pools0[p].(cfg := pools[p].cfg)
  }

  lemma PreparingStart(pools: map<string, PoolView>, cfg: NodeConfig)
    ensures Preparing(pools, cfg, {}, {}, pools)
  {
  }

  lemma PreparingOld(pools0: map<string, PoolView>, cfg: NodeConfig, names: set<string>, settled: set<string>,
                     pools: map<string, PoolView>)
    requires Preparing(pools0, cfg, names, settled, pools)
    ensures OnlyConfigs(pools0, pools)
  {
  }

  /** The pools after one of them was given a configuration, and created if need be. */
  ghost function Assigned(pools: map<string, PoolView>, p: string, pc: Config, cpus: CPUSet): map<string, PoolView> {
    pools[p := if p in pools then pools[p].(cfg := Some(pc)) else PoolView(cpus, {}, 0, Some(pc))]
  }

  lemma PreparingAssign(pools0: map<string, PoolView>, cfg: NodeConfig, names: set<string>, settled: set<string>,
                        pools: map<string, PoolView>, p: string, cpus: CPUSet)
    requires Preparing(pools0, cfg, names, settled, pools) && p in cfg
    ensures Preparing(pools0, cfg, names + {p}, settled + {p}, Assigned(pools, p, cfg[p], cpus))
  {
  }

  lemma PreparingClaim(pools0: map<string, PoolView>, cfg: NodeConfig, names: set<string>, settled: set<string>,
                       pools: map<string, PoolView>, p: string)
    requires Preparing(pools0, cfg, names, settled, pools) && p in cfg && p !in names
    ensures
      var pools' := if p in pools then pools else pools[p := PoolView({}, {}, 0, None)];
      Preparing(pools0, cfg, names + {p}, settled, pools')
  {
  }

  /** A claimant that was not settled yet gets its CPUs. */
  lemma PreparingLeftover(pools0: map<string, PoolView>, cfg: NodeConfig, settled: set<string>,
                          pools: map<string, PoolView>, p: string, pc: Config, cpus: CPUSet)
    requires Preparing(pools0, cfg, cfg.Keys, settled, pools) && p in cfg && p !in settled
    ensures
      var cfg' := cfg[p := pc];
      Preparing(pools0, cfg', cfg'.Keys, settled + {p}, Assigned(pools, p, pc, cpus))
  {
  }

  /** The pools after a configuration was prepared completely. */
  ghost predicate Prepared(pools0: map<string, PoolView>, cfg: NodeConfig, pools: map<string, PoolView>) {
    Preparing(pools0, cfg, cfg.Keys, (set p | p in cfg && !(p == "" && Claims(cfg[p]))), pools)
  }

  lemma PreparedBusy(pools0: map<string, PoolView>, cfg: NodeConfig, settled: set<string>, pools: map<string, PoolView>)
    requires Preparing(pools0, cfg, cfg.Keys, settled, pools)
    ensures Busy(pools) <= cfg.Keys <==> Busy(pools0) <= cfg.Keys
  {
    if Busy(pools) <= cfg.Keys {
      forall p | p in Busy(pools0) ensures p in cfg {
        assert p in cfg || p in Busy(pools);
      }
    }
    if Busy(pools0) <= cfg.Keys {
      forall p | p in Busy(pools) ensures p in cfg {
        assert p in cfg || p in Busy(pools0);
      }
    }
  }

  /** Preparing fails after the reserved pool was set up and some claimants got their CPUs. */
  lemma RetainedAsRequested(m: Machine, cfg: NodeConfig, cfg1: NodeConfig, s: Scan, done: set<bool>)
    requires ValidMachine(m) && WithReserved(m, cfg) == Some(cfg1)
    ensures SameRequest(m, cfg, WithSomeLeftovers(cfg1, s, done))
  {
  }

  lemma NotSetUpAsRequested(m: Machine, cfg: NodeConfig)
    requires ValidMachine(m) && WithReserved(m, cfg).None?
    ensures SameRequest(m, cfg, cfg)
  {
  }

  /** All claims can be met. */
  ghost predicate ClaimsMet(s: Scan) {
    forall k :: Claimant(s, k) != "" ==> Claimed(s, k) != {}
  }

  lemma AcceptsIs(m: Machine, busy: set<string>, cfg: NodeConfig, cfg1: NodeConfig, order: seq<string>, s: Scan)
    requires ValidMachine(m) && WithReserved(m, cfg) == Some(cfg1) && cfg1.Keys == cfg.Keys
    requires IsOrder(order, cfg.Keys) && Passes(m, cfg1, order) && ScanAll(m, cfg1, order) == Some(s)
    ensures Accepts(m, busy, cfg, order) <==> ClaimsMet(s) && busy <= cfg.Keys
  {
  }

  lemma PreparedIs(m: Machine, cfg1: NodeConfig, order: seq<string>, s: Scan, pools0: map<string, PoolView>,
                   pools: map<string, PoolView>)
    requires ValidMachine(m) && IsOrder(order, cfg1.Keys) && Passes(m, cfg1, order) &&
        ScanAll(m, cfg1, order) == Some(s)
    requires
      var cfg2 := WithLeftovers(cfg1, s);
      Preparing(pools0, cfg2, cfg2.Keys, Settled(cfg1, s, s.leftover.Keys), pools)
    ensures Prepared(pools0, WithLeftovers(cfg1, s), pools)
  {
    SettledInTheEnd(m, cfg1, order);
    var cfg2 := WithLeftovers(cfg1, s);
    assert (set p | p in cfg1 && !(p == "" && Claims(cfg1[p]))) == set p | p in cfg2 && !(p == "" && Claims(cfg2[p]));
  }

  // The loops over all pools, after some of them were visited

  /** restoreConfig, first loop: the visited pools have their current configuration back. */
  ghost function ConfigsRestored(pools: map<string, PoolView>, cfg: NodeConfig,
                                 done: set<string>): map<string, PoolView>
    requires done <= cfg.Keys
  {
    map p | p in pools :: if p in done then pools[p].(cfg := Some(cfg[p])) else pools[p]
  }

  lemma ConfigsRestoredStep(pools: map<string, PoolView>, cfg: NodeConfig, done: set<string>, p: string)
    requires done <= cfg.Keys && p in cfg && p in pools && p !in done
    ensures p in ConfigsRestored(pools, cfg, done)
    ensures ConfigsRestored(pools, cfg, done + {p}) ==
            ConfigsRestored(pools, cfg, done)[p := ConfigsRestored(pools, cfg, done)[p].(cfg := Some(cfg[p]))]
  {
  }

  lemma ConfigsRestoredStart(pools: map<string, PoolView>, cfg: NodeConfig)
    ensures ConfigsRestored(pools, cfg, {}) == pools
  {
  }

  /** The pools of the current configuration, carrying it. */
  ghost function Restored(pools: map<string, PoolView>, cfg: NodeConfig): map<string, PoolView> {
    map p | p in pools && p in cfg :: pools[p].(cfg := Some(cfg[p]))
  }

  lemma RestoredEnd(pools: map<string, PoolView>, cfg: NodeConfig)
    requires cfg.Keys <= pools.Keys
    ensures ConfigsRestored(pools, cfg, cfg.Keys) - (pools.Keys - cfg.Keys) == Restored(pools, cfg)
    ensures ConfigsRestored(pools, cfg, cfg.Keys).Keys == pools.Keys
  {
  }

  lemma RestoredOld(s: State, pools: map<string, PoolView>)
    requires ConfigRecorded(s) && OnlyConfigs(s.pools, pools)
    ensures s.currentCfg.Keys <= pools.Keys
    ensures Restored(pools, s.currentCfg) == map p | p in s.pools && p in s.currentCfg :: s.pools[p]
  {
  }

  ghost function ConfiguredCpus(pv: PoolView): CPUSet {
    if pv.cfg.Some? && pv.cfg.value.cpus.Some? then pv.cfg.value.cpus.value else {}
  }

  /** Activation: the visited pools share their configured CPUs, those without a configuration are gone. */
  ghost function ActivatedSoFar(pools: map<string, PoolView>, done: set<string>): map<string, PoolView> {
    map p | p in pools && !(p in done && pools[p].cfg.None?) ::
      if p in done then pools[p].(shared := ConfiguredCpus(pools[p]) - pools[p].pinned) else pools[p]
  }

  lemma ActivatedSoFarStart(pools: map<string, PoolView>)
    ensures ActivatedSoFar(pools, {}) == pools
  {
  }

  lemma ActivatedSoFarStep(pools: map<string, PoolView>, done: set<string>, p: string)
    requires p in pools && p !in done
    ensures p in ActivatedSoFar(pools, done) && ActivatedSoFar(pools, done)[p] == pools[p]
    ensures
      var now := ActivatedSoFar(pools, done);
      ActivatedSoFar(pools, done + {p}) ==
      if pools[p].cfg.None? then now - {p}
      else now[p := PoolView(ConfiguredCpus(pools[p]) - pools[p].pinned, pools[p].pinned, pools[p].used, pools[p].cfg)]
  {
  }

  lemma PreparedActivates(pools0: map<string, PoolView>, cfg: NodeConfig, pools: map<string, PoolView>)
    requires Prepared(pools0, cfg, pools)
    ensures ActivatedSoFar(pools, pools.Keys) == Activated(pools0, cfg)
  {
    var a, b := ActivatedSoFar(pools, pools.Keys), Activated(pools0, cfg);
    forall p ensures p in a <==> p in b {
      assert p in pools ==> pools[p].cfg == NewConfig(pools0, cfg, p);
    }
    forall p | p in a ensures a[p] == b[p] {
      assert pools[p].cfg == NewConfig(pools0, cfg, p);
      assert ConfiguredCpus(pools[p]) - {} == ConfiguredCpus(pools[p]);
    }
    assert a == b;
  }

  /** Reset: the visited pools have all their CPUs shared. */
  ghost function ResetSoFar(pools: map<string, PoolView>, done: set<string>): map<string, PoolView> {
    map p | p in pools :: if p in done then pools[p].(shared := Footprint(pools[p]), pinned := {}) else pools[p]
  }

  lemma ResetStart(pools: map<string, PoolView>)
    ensures ResetSoFar(pools, {}) == pools
  {
  }

  lemma ResetStep(pools: map<string, PoolView>, done: set<string>, p: string)
    requires p in pools && p !in done
    ensures p in ResetSoFar(pools, done) && ResetSoFar(pools, done)[p] == pools[p]
    ensures ResetSoFar(pools, done + {p}) ==
            ResetSoFar(pools, done)[p := PoolView(pools[p].shared + pools[p].pinned, {}, pools[p].used, pools[p].cfg)]
  {
  }

  /** Metrics: the visited pools are in the cache, with their current data. */
  ghost function CacheSoFar(pools: map<string, PoolView>, done: set<string>): map<string, PoolData> {
    map p | p in pools && p in done && Measured(p) :: DataOf(p, pools[p])
  }

  lemma CacheStart(pools: map<string, PoolView>)
    ensures CacheSoFar(pools, {}) == map[]
  {
  }

  lemma CacheStep(pools: map<string, PoolView>, done: set<string>, p: string)
    requires p in pools
    ensures CacheSoFar(pools, done + {p}) == Measure(CacheSoFar(pools, done), pools, p)
  {
  }

  lemma CacheEnd(pools: map<string, PoolView>)
    ensures CacheSoFar(pools, pools.Keys) == ExpectedCache(pools)
  {
  }

  // Reallocation

  /** Exclusive containers are being reallocated: the containers done so far pin what they got, and what is still
      shared suffices for the ones to do. */
  ghost predicate Reallocating(e: Env, pools0: map<string, PoolView>, cs0: map<string, Container>,
                               done: map<string, Container>, todo: map<string, Container>,
                               pools: map<string, PoolView>, cs: map<string, Container>)
  {
    Divided(cs0, done, todo, cs, pools0.Keys) && Serving(e, pools0, pools, done, todo)
  }

  /** The containers during reallocation: some done, the others as they were. */
  ghost predicate Divided(cs0: map<string, Container>, done: map<string, Container>, todo: map<string, Container>,
                          cs: map<string, Container>, pools: set<string>)
  {
    && done.Keys !! todo.Keys && cs == done + todo && cs.Keys == cs0.Keys
    && ContainersOk(done, pools) && ContainersOk(todo, pools)
    && (forall id :: id in todo ==> todo[id] == cs0[id])
    && (forall id :: id in done ==> done[id] == cs0[id].(cpus := done[id].cpus) && |done[id].cpus| == |cs0[id].cpus|)
  }

  /** The pools during reallocation. */
  ghost predicate Serving(e: Env, pools0: map<string, PoolView>, pools: map<string, PoolView>,
                          done: map<string, Container>, todo: map<string, Container>)
  {
    && pools.Keys == pools0.Keys
    && forall p :: p in pools0 ==>
         Serves(e, pools0[p], pools[p], Exclusive(done, p), Exclusive(todo, p), AtMostOne(todo, p))
  }

  /** A container with exclusive CPUs of the pool. */
  ghost predicate HasExclusive(c: Container, p: string) {
    c.pool == p && c.cpus != {}
  }

  /** No two containers have exclusive CPUs of the pool. */
  ghost predicate AtMostOne(cs: map<string, Container>, p: string) {
    forall a, b :: a in cs && b in cs && HasExclusive(cs[a], p) && HasExclusive(cs[b], p) ==> a == b
  }

  /** The allocator can serve the demand: enough CPUs are usable, or a single container wants them all. */
  ghost predicate Suffices(e: Env, from: CPUSet, demand: CPUSet, alone: bool) {
    |demand| <= |AllocSpec.Usable(e.m.topo, e.allocOffline, from)| || (alone && |from| == |demand|)
  }

  /** A pool during reallocation. */
  ghost predicate Serves(e: Env, pv0: PoolView, pv: PoolView, pinned: CPUSet, demand: CPUSet, alone: bool) {
    && pv.shared !! pv.pinned && Footprint(pv) == Footprint(pv0)
    && pv.used == pv0.used && pv.cfg == pv0.cfg
    && pv.pinned == pinned
    && |pinned| + |demand| == |pv0.pinned|
    && Suffices(e, pv.shared, demand, alone)
    && (pv.shared == {} || pinned <= AllocSpec.Usable(e.m.topo, e.allocOffline, Footprint(pv0)))
  }

  /** Every pool can serve the exclusive CPUs of its containers again. */
  ghost predicate CanReallocate(e: Env, pools: map<string, PoolView>, cs: map<string, Container>) {
    Apart(pools) && CoversAll(e, pools, cs)
  }

  /** Every pool by itself has enough CPUs for its containers. */
  ghost predicate CoversAll(e: Env, pools: map<string, PoolView>, cs: map<string, Container>) {
    ContainersOk(cs, pools.Keys) && forall p :: p in pools ==> Covers(e, pools[p], Exclusive(cs, p), AtMostOne(cs, p))
  }

  /** A pool's pinned CPUs are the given ones, and its CPUs could replace them. */
  ghost predicate Covers(e: Env, pv: PoolView, exclusive: CPUSet, alone: bool) {
    && pv.shared !! pv.pinned
    && pv.pinned == exclusive
    && Suffices(e, Footprint(pv), pv.pinned, alone)
  }

  /** Each container keeps its pool, its request and its number of exclusive CPUs; each pool keeps its footprint. */
  ghost predicate Reallocated(e: Env, pools: map<string, PoolView>, cs: map<string, Container>,
                              pools': map<string, PoolView>, cs': map<string, Container>)
  {
    && pools'.Keys == pools.Keys && cs'.Keys == cs.Keys
    && ContainersOk(cs', pools.Keys)
    && (forall id :: id in cs ==> cs'[id] == cs[id].(cpus := cs'[id].cpus) && |cs'[id].cpus| == |cs[id].cpus|)
    && (forall p :: p in pools ==> ReallocatedPool(e, pools[p], pools'[p], Exclusive(cs', p)))
  }

  ghost predicate ReallocatedPool(e: Env, pv: PoolView, pv': PoolView, exclusive: CPUSet) {
    && pv'.shared !! pv'.pinned
    && Footprint(pv') == Footprint(pv)
    && pv'.pinned == exclusive
    && |pv'.pinned| == |pv.pinned|
    && pv'.used == pv.used && pv'.cfg == pv.cfg
    && (pv'.shared == {} || pv'.pinned <= AllocSpec.Usable(e.m.topo, e.allocOffline, Footprint(pv)))
  }

  /** A container's turn: it is allocated as many exclusive CPUs as it has. */
  ghost predicate AllocatedAgain(e: Env, s: State, id: string, s': State, ok: bool, result: CPUSet)
    requires ValidEnv(e)
  {
    && id in s.containers && s.containers[id].cpus != {}
    && TookCpus(e, s, id, s.containers[id].pool, |s.containers[id].cpus|, s', ok, result)
  }

  /** Pools and containers before and after a container's turn; one without exclusive CPUs is passed over. */
  ghost predicate AllocationStep(e: Env, pools: map<string, PoolView>, cs: map<string, Container>, id: string,
                                 pools': map<string, PoolView>, cs': map<string, Container>)
    requires ValidEnv(e)
  {
    && id in cs
    && if cs[id].cpus == {} then pools' == pools && cs' == cs
       else exists s, s', result ::
         && AllocatedAgain(e, s, id, s', true, result)
         && s.pools == pools && s.containers == cs && s'.pools == pools' && s'.containers == cs'
  }

  ghost predicate AllocationFails(e: Env, pools: map<string, PoolView>, cs: map<string, Container>, id: string)
    requires ValidEnv(e)
  {
    exists s, s', result :: AllocatedAgain(e, s, id, s', false, result) && s.pools == pools && s.containers == cs
  }

  /** Pools and containers after the given containers had their turns, in this order. */
  ghost predicate Reached(e: Env, pools0: map<string, PoolView>, cs0: map<string, Container>, order: seq<string>,
                          pools: map<string, PoolView>, cs: map<string, Container>)
    requires ValidEnv(e)
    decreases |order|
  {
    if order == [] then pools == pools0 && cs == cs0 else
    var before, last := order[..|order| - 1], order[|order| - 1];
    exists p, c :: Reached(e, pools0, cs0, before, p, c) && AllocationStep(e, p, c, last, pools, cs)
  }

  /** updateAllocations, visiting the containers in the given order: all exclusive CPUs are given up, then the
      containers have their turns, until all had one or an allocation fails. */
  ghost predicate ReallocatesIn(e: Env, pools: map<string, PoolView>, cs: map<string, Container>, order: seq<string>,
                                pools': map<string, PoolView>, cs': map<string, Container>)
    requires ValidEnv(e)
  {
    && Distinct(order) && Members(order) <= cs.Keys
    && Reached(e, ResetSoFar(pools, pools.Keys), cs, order, pools', cs')
    && (Members(order) == cs.Keys || exists id :: id in cs.Keys - Members(order) && AllocationFails(e, pools', cs', id))
  }

  ghost predicate Reallocates(e: Env, pools: map<string, PoolView>, cs: map<string, Container>,
                              pools': map<string, PoolView>, cs': map<string, Container>)
    requires ValidEnv(e)
  {
    exists order :: ReallocatesIn(e, pools, cs, order, pools', cs')
  }

  /** The pools that carry the current configuration do so faithfully. */
  ghost predicate ConfigRecorded(s: State) {
    forall p :: p in s.currentCfg ==> p in s.pools && s.pools[p].cfg == Some(s.currentCfg[p])
  }

  /** A configuration asks for the same as another one, whose reserved pool may not be set up yet:
      only the CPUs found for leftover claimants may differ. */
  ghost predicate SameRequest(m: Machine, cfg: NodeConfig, cfg': NodeConfig)
    requires ValidMachine(m)
  {
    var base := if WithReserved(m, cfg).Some? then WithReserved(m, cfg).value else cfg;
    && cfg'.Keys == base.Keys
    && forall p :: p in base ==>
         && cfg'[p].(cpus := base[p].cpus) == base[p]
         && ((p != "" && Claims(base[p])) || cfg'[p].cpus == base[p].cpus)
  }

  /** A rejected configuration leaves containers, current configuration, metrics and online CPUs alone, and of the
      pools those of the current configuration; it stays pending. */
  ghost predicate Rejected(e: Env, s: State, cfg: NodeConfig, s': State)
    requires ValidEnv(e)
  {
    && s'.containers == s.containers && s'.currentCfg == s.currentCfg
    && s'.cache == s.cache && s'.online == s.online
    && (ConfigRecorded(s) ==> s'.pools == map p | p in s.pools && p in s.currentCfg :: s.pools[p])
    && s'.pendingCfg.Some? && SameRequest(e.m, cfg, s'.pendingCfg.value)
  }

  /** The online CPUs after everything was brought online and then the given CPUs were taken offline;
      CPU 0 is never touched. */
  ghost function OnlineAfter(m: Machine, online: CPUSet, offlined: CPUSet): CPUSet {
    online + (m.topo.Keys - {0}) - (offlined - {0})
  }

  /** An accepted configuration was activated with the CPU sets found in this iteration order. */
  ghost predicate Accepted(e: Env, s: State, cfg: NodeConfig, order: seq<string>, s': State)
    requires ValidEnv(e) && IsOrder(order, cfg.Keys) && Accepts(e.m, Busy(s.pools), cfg, order)
  {
    var cfg1 := WithReserved(e.m, cfg).value;
    var scan := ScanAll(e.m, cfg1, order).value;
    && s'.currentCfg == WithLeftovers(cfg1, scan) && s'.pendingCfg == None && s'.offlined == scan.offlined
    && Activation(e, s, s')
  }

  /** The pools of the new current configuration are activated, their containers reallocated, metrics and
      online CPUs brought up to date. */
  ghost predicate Activation(e: Env, s: State, s': State)
    requires ValidEnv(e)
  {
    var pools := Activated(s.pools, s'.currentCfg);
    && s'.online == OnlineAfter(e.m, s.online, s'.offlined)
    && s'.cache == ExpectedCache(s'.pools)
    && s'.pools.Keys == pools.Keys && s'.containers.Keys == s.containers.Keys
    && Reallocates(e, pools, s.containers, s'.pools, s'.containers)
  }

  /** reconcileConfig, visiting the pools of the pending configuration in the given order. */
  ghost predicate Reconciled(e: Env, s: State, order: seq<string>, s': State, ok: bool)
    requires ValidEnv(e)
  {
    if s.pendingCfg.None? then ok && s' == s else
    var cfg := s.pendingCfg.value;
    && IsOrder(order, cfg.Keys)
    && if Accepts(e.m, Busy(s.pools), cfg, order) then ok && Accepted(e, s, cfg, order, s')
       else !ok && Rejected(e, s, cfg, s')
  }

  /** ReleaseCPU: the container is forgotten; if its pool exists, its CPUs go back there, and then the pending
      configuration, if any, is tried again. */
  ghost predicate ReleasedTo(e: Env, s: State, id: string, order: seq<string>, s': State, ok: bool)
    requires ValidEnv(e)
  {
    if id !in s.containers then s' == s
    else if s.containers[id].pool !in s.pools then s' == s.(containers := s.containers - {id})
    else Reconciled(e, Released(s, id), order, s', ok)
  }

  // Rollback

  /** When the pools of the current configuration carry it, a rejected configuration leaves all pools exactly as
      they were if and only if every pool belongs to the current configuration. */
  lemma RollbackIsExactIff(e: Env, s: State, cfg: NodeConfig, s': State)
    requires ValidEnv(e) && Rejected(e, s, cfg, s') && ConfigRecorded(s)
    ensures s'.pools == s.pools <==> s.pools.Keys <= s.currentCfg.Keys
  {
    assert s'.pools.Keys <= s.currentCfg.Keys;
    if s.pools.Keys <= s.currentCfg.Keys {
      assert s'.pools == s.pools;
    }
  }

  /** A rejected configuration leaves every container as it was, and its pool exactly if the current configuration
      names that. */
  lemma RollbackKeepsPoolsIff(e: Env, s: State, cfg: NodeConfig, s': State, id: string)
    requires ValidEnv(e) && Rejected(e, s, cfg, s') && ConfigRecorded(s)
    requires id in s.containers && s.containers[id].pool in s.pools
    ensures id in s'.containers && s'.containers[id] == s.containers[id]
    ensures s'.containers[id].pool in s'.pools <==> s.containers[id].pool in s.currentCfg
  {
  }

  /** In a steady state a rejected configuration changes nothing but what is pending and the field of offlined CPUs. */
  lemma RejectedKeeps(e: Env, s: State, cfg: NodeConfig, s': State)
    requires ValidEnv(e) && Steady(s) && Rejected(e, s, cfg, s')
    ensures s' == s.(pendingCfg := s'.pendingCfg, offlined := s'.offlined)
    ensures Steady(s') && (Consistent(s) ==> Consistent(s'))
  {
    RollbackIsExactIff(e, s, cfg, s');
  }

  /** The retained configuration has its reserved pool set up, or is the original one. */
  lemma RetainedIsSetUp(m: Machine, cfg: NodeConfig, cfg': NodeConfig)
    requires ValidMachine(m) && SameRequest(m, cfg, cfg')
    requires RESERVED in cfg ==> !Claims(cfg[RESERVED])
    ensures WithReserved(m, cfg).Some? ==> WithReserved(m, cfg') == Some(cfg')
    ensures WithReserved(m, cfg).None? ==> WithReserved(m, cfg').None?
  {
    if WithReserved(m, cfg).Some? {
      var cfg1 := WithReserved(m, cfg).value;
      FirstCpusShape(m.topo, cfg[RESERVED].cpuCount, 0, 0);
      var rc := cfg'[RESERVED];
      assert rc == cfg1[RESERVED];
      if rc.cpus.value == {} {
        assert rc.(cpus := Some(FirstCpus(m.topo, rc.cpuCount))) == rc;
        assert cfg'[RESERVED := rc] == cfg';
      }
    } else if RESERVED in cfg {
      assert cfg'[RESERVED] == cfg[RESERVED];
    }
  }

  /** Trying again later: the retained configuration gets the same verdict and the same CPU sets as the original one
      would. */
  lemma RetryIsTheSame(m: Machine, busy: set<string>, cfg: NodeConfig, cfg': NodeConfig)
    requires ValidMachine(m) && SameRequest(m, cfg, cfg')
    requires RESERVED in cfg ==> !Claims(cfg[RESERVED])
    ensures Acceptable(m, busy, cfg) <==> Acceptable(m, busy, cfg')
    ensures Acceptable(m, busy, cfg) ==> Resolved(m, cfg') == Resolved(m, cfg) && Offlined(m, cfg') == Offlined(m, cfg)
  {
    RetainedIsSetUp(m, cfg, cfg');
    if WithReserved(m, cfg).Some? {
      hide WithReserved, AcceptableSetUp, ResolvedSetUp, ToOffline;
      SameScan(m, WithReserved(m, cfg).value, cfg');
      SameSetUp(m, busy, WithReserved(m, cfg).value, cfg');
    }
  }

  lemma SameSetUp(m: Machine, busy: set<string>, cfg: NodeConfig, cfg': NodeConfig)
    requires cfg'.Keys == cfg.Keys
    requires forall p :: p in cfg ==>
               cfg'[p].(cpus := cfg[p].cpus) == cfg[p] && ((p != "" && Claims(cfg[p])) || cfg'[p].cpus == cfg[p].cpus)
    ensures AcceptableSetUp(m, busy, cfg) <==> AcceptableSetUp(m, busy, cfg')
    ensures ResolvedSetUp(m, cfg) == ResolvedSetUp(m, cfg')
  {
    SameScan(m, cfg, cfg');
    hide Fits, UniqueClaims, Leftover;
  }

  lemma SameScan(m: Machine, cfg: NodeConfig, cfg': NodeConfig)
    requires cfg'.Keys == cfg.Keys
    requires forall p :: p in cfg ==>
               cfg'[p].(cpus := cfg[p].cpus) == cfg[p] && ((p != "" && Claims(cfg[p])) || cfg'[p].cpus == cfg[p].cpus)
    ensures Fits(m, cfg, cfg.Keys) <==> Fits(m, cfg', cfg.Keys)
    ensures UniqueClaims(cfg, cfg.Keys) <==> UniqueClaims(cfg', cfg.Keys)
    ensures forall k :: Leftover(m, cfg, cfg.Keys, k) == Leftover(m, cfg', cfg.Keys, k)
    ensures ToOffline(m, cfg, cfg.Keys) == ToOffline(m, cfg', cfg.Keys)
  {
    forall p | p in cfg
      ensures CpusOf(cfg, p) == CpusOf(cfg', p) && SibsOf(m, cfg, p) == SibsOf(m, cfg', p)
      ensures cfg[p].isolated == cfg'[p].isolated
    { }
    assert Taken(cfg, cfg.Keys, true) == Taken(cfg', cfg.Keys, true);
    assert Taken(cfg, cfg.Keys, false) == Taken(cfg', cfg.Keys, false);
  }

  // Activation

  /** The CPUs the new configuration gives a pool; a pool it does not name keeps its old ones. */
  ghost function NewCpus(pools: map<string, PoolView>, cfg: NodeConfig, p: string): CPUSet {
    var pc := NewConfig(pools, cfg, p);
    if pc.Some? && pc.value.cpus.Some? then pc.value.cpus.value else {}
  }

  /** No pool's pinned CPUs are given to another pool, and no pool that is dropped overlaps one that is not. */
  ghost predicate KeepsApart(pools: map<string, PoolView>, cfg: NodeConfig) {
    forall p, q :: p in pools && q in pools.Keys + cfg.Keys && p != q ==>
      && pools[p].pinned !! NewCpus(pools, cfg, q)
      && (p !in cfg ==> NewCpus(pools, cfg, p) !! NewCpus(pools, cfg, q))
  }

  /** Every pool has its CPU set, and no two the same CPU. */
  ghost predicate FullConfig(cfg: NodeConfig) {
    && NoneOverlooked(cfg)
    && (forall p :: p in cfg ==> cfg[p].cpus.Some?)
    && forall p, q :: p in cfg && q in cfg && p != q ==> cfg[p].cpus.value !! cfg[q].cpus.value
  }

  /** Each pool keeps enough CPUs that the allocator can use for its pinned ones, or one container pins them all. */
  ghost predicate LeavesEnough(e: Env, s: State, cfg: NodeConfig) {
    forall p :: p in s.pools ==>
      Suffices(e, NewCpus(s.pools, cfg, p) + s.pools[p].pinned, s.pools[p].pinned, AtMostOne(s.containers, p))
  }

  /** What parsing gives unless the file has a wildcard for a pool named "" or for the reserved pool. */
  ghost predicate Sensible(cfg: NodeConfig) {
    Ready(cfg) && NoneOverlooked(cfg) && forall p :: p in cfg && Claims(cfg[p]) ==> p != RESERVED && !cfg[p].disableHT
  }

  /** What a caller has to see to before a configuration is taken in use in this state: it names every pool and the
      default pool, gives no pool's pinned CPUs to another pool, and leaves each pool enough CPUs
      that the allocator can use for its pinned ones, unless one container pins all it has. */
  ghost predicate Gentle(e: Env, s: State, cfg: NodeConfig)
    requires ValidEnv(e)
  {
    && Sensible(cfg) && DEFAULT in cfg
    && s.pools.Keys <= cfg.Keys
    && (WithReserved(e.m, cfg).Some? ==>
          KeepsApart(s.pools, Resolved(e.m, cfg)) && LeavesEnough(e, s, Resolved(e.m, cfg)))
  }

  lemma ResolvedIsFull(m: Machine, busy: set<string>, cfg: NodeConfig)
    requires ValidMachine(m) && Ready(cfg) && NoneOverlooked(cfg) && Acceptable(m, busy, cfg)
    ensures FullConfig(Resolved(m, cfg)) && Resolved(m, cfg).Keys == cfg.Keys && RESERVED in cfg && busy <= cfg.Keys
  {
    ResolvedHasCpus(m, cfg);
    forall p, q | p in cfg && q in cfg && p != q
      ensures Resolved(m, cfg)[p].cpus.value !! Resolved(m, cfg)[q].cpus.value
    {
      ResolvedDisjoint(m, busy, cfg, p, q);
    }
  }

  /** When no pool is overlooked, an accepted configuration is activated with the CPU sets that no order influences. */
  lemma AcceptedMeans(e: Env, s: State, cfg: NodeConfig, order: seq<string>, s': State)
    requires ValidEnv(e) && NoneOverlooked(cfg)
    requires IsOrder(order, cfg.Keys) && Accepts(e.m, Busy(s.pools), cfg, order) && Accepted(e, s, cfg, order, s')
    ensures Acceptable(e.m, Busy(s.pools), cfg)
    ensures s'.currentCfg == Resolved(e.m, cfg) && s'.offlined == Offlined(e.m, cfg)
    ensures s'.pendingCfg == None && Activation(e, s, s')
  {
    NoneOverlookedAgrees(e.m, Busy(s.pools), cfg);
    PreparationMeans(e.m, Busy(s.pools), cfg, order);
  }

  /** The CPUs a pool has pinned; none before it exists. */
  ghost function PinnedOf(pools: map<string, PoolView>, p: string): CPUSet {
    if p in pools then pools[p].pinned else {}
  }

  ghost function UsedOf(pools: map<string, PoolView>, p: string): int {
    if p in pools then pools[p].used else 0
  }

  /** Activation, pool by pool. */
  ghost predicate ActivatesTo(pools: map<string, PoolView>, cfg: NodeConfig, pools': map<string, PoolView>) {
    && pools'.Keys == pools.Keys + cfg.Keys
    && forall p :: p in pools' ==>
         pools'[p] == PoolView(NewCpus(pools, cfg, p) - PinnedOf(pools, p), PinnedOf(pools, p),
                               UsedOf(pools, p), NewConfig(pools, cfg, p))
  }

  /** All pools have their CPU sets. */
  ghost predicate AllConfigured(pools: map<string, PoolView>) {
    forall p :: p in pools ==> pools[p].cfg.Some? && pools[p].cfg.value.cpus.Some?
  }

  lemma ActivatedIs(pools: map<string, PoolView>, cfg: NodeConfig)
    requires FullConfig(cfg) && (pools.Keys <= cfg.Keys || AllConfigured(pools))
    ensures ActivatesTo(pools, cfg, Activated(pools, cfg))
  {
  }

  lemma ActivatedFootprint(pools: map<string, PoolView>, cfg: NodeConfig, pools': map<string, PoolView>, p: string)
    requires ActivatesTo(pools, cfg, pools') && p in pools'
    ensures Footprint(pools'[p]) == NewCpus(pools, cfg, p) + PinnedOf(pools, p)
    ensures pools'[p].shared !! pools'[p].pinned
  {
  }

  /** No two activated pools share a CPU. */
  ghost predicate Apart(pools: map<string, PoolView>) {
    forall p, q :: p in pools && q in pools && p != q ==> Footprint(pools[p]) !! Footprint(pools[q])
  }

  /** The pinned CPUs of different pools are different. */
  ghost predicate PinnedApart(pools: map<string, PoolView>) {
    forall p, q :: p in pools && q in pools && p != q ==> pools[p].pinned !! pools[q].pinned
  }

  lemma ActivatedApartIff(pools: map<string, PoolView>, cfg: NodeConfig, pools': map<string, PoolView>)
    requires PinnedApart(pools) && FullConfig(cfg) && ActivatesTo(pools, cfg, pools')
    ensures Apart(pools') <==> KeepsApart(pools, cfg)
  {
    if KeepsApart(pools, cfg) {
      forall p, q | p in pools' && q in pools' && p != q ensures Footprint(pools'[p]) !! Footprint(pools'[q]) {
        ActivatedApart(pools, cfg, pools', p, q);
      }
    } else {
      var p, q :| p in pools && q in pools.Keys + cfg.Keys && p != q
                  && !(pools[p].pinned !! NewCpus(pools, cfg, q)
                       && (p !in cfg ==> NewCpus(pools, cfg, p) !! NewCpus(pools, cfg, q)));
      hide KeepsApart, FullConfig, PinnedApart, NewCpus, NewConfig;
      ActivatedFootprint(pools, cfg, pools', p);
      ActivatedFootprint(pools, cfg, pools', q);
      hide Footprint, ActivatesTo;
      assert !(Footprint(pools'[p]) !! Footprint(pools'[q]));
    }
  }

  lemma ActivatedApart(pools: map<string, PoolView>, cfg: NodeConfig, pools': map<string, PoolView>, p: string,
                       q: string)
    requires PinnedApart(pools) && FullConfig(cfg) && ActivatesTo(pools, cfg, pools') && KeepsApart(pools, cfg)
    requires p in pools' && q in pools' && p != q
    ensures Footprint(pools'[p]) !! Footprint(pools'[q])
  {
    ActivatedFootprint(pools, cfg, pools', p);
    ActivatedFootprint(pools, cfg, pools', q);
    hide Footprint;
    assert NewCpus(pools, cfg, p) !! NewCpus(pools, cfg, q);
    hide NewCpus, FullConfig;
    assert PinnedOf(pools, p) !! NewCpus(pools, cfg, q) && PinnedOf(pools, q) !! NewCpus(pools, cfg, p);
    hide KeepsApart;
    assert PinnedOf(pools, p) !! PinnedOf(pools, q);
    hide *;
  }

  lemma SoundPinnedApart(s: State)
    requires Sound(s)
    ensures PinnedApart(s.pools)
  {
    forall p, q | p in s.pools && q in s.pools && p != q ensures s.pools[p].pinned !! s.pools[q].pinned {
      assert Footprint(s.pools[p]) !! Footprint(s.pools[q]);
    }
  }

  /** A gentle configuration can always be reallocated: the total exclusive demand of a pool is its old pinned size,
      which its activated CPUs always cover. */
  lemma ActivatedCanReallocate(e: Env, s: State, cfg: NodeConfig, pools: map<string, PoolView>)
    requires Sound(s) && LeavesEnough(e, s, cfg) && ActivatesTo(s.pools, cfg, pools)
    ensures CoversAll(e, pools, s.containers)
    ensures Apart(pools) ==> CanReallocate(e, pools, s.containers)
  {
    hide Separated, Accounted, LeavesEnough, Footprint, Exclusive, ActivatesTo, Covers, ContainersOk, Apart;
    forall p | p in pools ensures Covers(e, pools[p], Exclusive(s.containers, p), AtMostOne(s.containers, p)) {
      ActivatedCovers(e, s, cfg, pools, p);
    }
    ActivatedHasAll(s.pools, cfg, pools);
    MorePools(s.containers, s.pools.Keys, pools.Keys);
  }

  lemma ActivatedHasAll(pools: map<string, PoolView>, cfg: NodeConfig, pools': map<string, PoolView>)
    requires ActivatesTo(pools, cfg, pools')
    ensures pools.Keys <= pools'.Keys
  {
  }

  lemma MorePools(cs: map<string, Container>, pools: set<string>, pools': set<string>)
    requires ContainersOk(cs, pools) && pools <= pools'
    ensures ContainersOk(cs, pools')
  {
  }

  lemma ActivatedCovers(e: Env, s: State, cfg: NodeConfig, pools: map<string, PoolView>, p: string)
    requires Sound(s) && LeavesEnough(e, s, cfg) && ActivatesTo(s.pools, cfg, pools) && p in pools
    ensures Covers(e, pools[p], Exclusive(s.containers, p), AtMostOne(s.containers, p))
  {
    ActivatedFootprint(s.pools, cfg, pools, p);
    hide Separated, Footprint, NewCpus, NewConfig, AllocSpec.Usable;
    if p in s.pools {
      hide ContainersOk;
      assert pools[p].pinned == s.pools[p].pinned;
    } else {
      hide Accounted, LeavesEnough;
      assert Exclusive(s.containers, p) == {};
    }
  }

  /** An acceptable gentle configuration activates pools that can serve their containers again. */
  lemma GentleReallocates(e: Env, s: State, cfg: NodeConfig) returns (pools: map<string, PoolView>)
    requires ValidEnv(e) && Sound(s) && Gentle(e, s, cfg) && Acceptable(e.m, Busy(s.pools), cfg)
    ensures pools == Activated(s.pools, Resolved(e.m, cfg)) && ActivatesTo(s.pools, Resolved(e.m, cfg), pools)
    ensures FullConfig(Resolved(e.m, cfg)) && Resolved(e.m, cfg).Keys == cfg.Keys && s.pools.Keys <= cfg.Keys
    ensures RESERVED in cfg && DEFAULT in cfg
    ensures Apart(pools) && CanReallocate(e, pools, s.containers)
  {
    ResolvedIsFull(e.m, Busy(s.pools), cfg);
    SoundPinnedApart(s);
    hide Acceptable, Resolved, Sound, Activated, CanReallocate, KeepsApart, LeavesEnough, FullConfig, ActivatesTo,
        Apart;
    var r := Resolved(e.m, cfg);
    pools := Activated(s.pools, r);
    ActivatedIs(s.pools, r);
    ActivatedApartIff(s.pools, r, pools);
    ActivatedCanReallocate(e, s, r, pools);
  }

  /** After an accepted gentle configuration every container keeps its pool, request and number of exclusive CPUs,
      and every pool has its configured CPUs and those it had pinned. */
  lemma AcceptedReallocates(e: Env, s: State, cfg: NodeConfig, order: seq<string>, s': State)
    returns (pools: map<string, PoolView>)
    requires ValidEnv(e) && Sound(s) && Gentle(e, s, cfg)
    requires IsOrder(order, cfg.Keys) && Accepts(e.m, Busy(s.pools), cfg, order) && Accepted(e, s, cfg, order, s')
    ensures FullConfig(s'.currentCfg) && s'.currentCfg.Keys == cfg.Keys && s.pools.Keys <= cfg.Keys
    ensures RESERVED in cfg && DEFAULT in cfg
    ensures ActivatesTo(s.pools, s'.currentCfg, pools) && Apart(pools) && CanReallocate(e, pools, s.containers)
    ensures Reallocates(e, pools, s.containers, s'.pools, s'.containers)
    ensures Reallocated(e, pools, s.containers, s'.pools, s'.containers)
    ensures s'.cache == ExpectedCache(s'.pools)
  {
    GentleNames(e, s, cfg);
    hide *;
    AcceptedMeans(e, s, cfg, order, s');
    pools := GentleReallocates(e, s, cfg);
    ActivationReallocates(e, s, s');
    ReallocatesMeans(e, pools, s.containers, s'.pools, s'.containers);
  }

  lemma GentleNames(e: Env, s: State, cfg: NodeConfig)
    requires ValidEnv(e) && Gentle(e, s, cfg)
    ensures NoneOverlooked(cfg)
  {
  }

  /** After an accepted gentle configuration the state is consistent, whatever it was configured as before. */
  lemma AcceptedKeeps(e: Env, s: State, cfg: NodeConfig, order: seq<string>, s': State)
    requires ValidEnv(e) && Sound(s) && Gentle(e, s, cfg)
    requires IsOrder(order, cfg.Keys) && Accepts(e.m, Busy(s.pools), cfg, order) && Accepted(e, s, cfg, order, s')
    ensures Consistent(s')
  {
    var pools := AcceptedReallocates(e, s, cfg, order, s');
    hide *;
    ReallocatedIsSound(e, s, s'.currentCfg, pools, s');
    ReallocatedIsCurrent(e, s, s'.currentCfg, pools, s');
    Together(s', s'.currentCfg);
  }

  lemma Together(s: State, cfg: NodeConfig)
    requires Sound(s) && ConfigCurrent(s) && s.cache == ExpectedCache(s.pools)
    requires s.currentCfg == cfg && RESERVED in cfg && DEFAULT in cfg
    ensures Consistent(s)
  {
  }

  lemma ReallocatedIsCurrent(e: Env, s: State, cfg: NodeConfig, pools: map<string, PoolView>, s': State)
    requires FullConfig(cfg) && s.pools.Keys <= cfg.Keys && ActivatesTo(s.pools, cfg, pools)
    requires Reallocated(e, pools, s.containers, s'.pools, s'.containers) && s'.currentCfg == cfg
    ensures ConfigCurrent(s')
  {
    hide ContainersOk, Exclusive, Footprint;
    forall p | p in s'.pools ensures p in cfg && s'.pools[p].cfg == Some(cfg[p]) {
      assert p in pools;
    }
  }

  lemma ReallocatedIsSound(e: Env, s: State, cfg: NodeConfig, pools: map<string, PoolView>, s': State)
    requires Sound(s) && Apart(pools) && ActivatesTo(s.pools, cfg, pools)
    requires Reallocated(e, pools, s.containers, s'.pools, s'.containers)
    ensures Sound(s')
  {
    ReallocatedAccounts(e, s, cfg, pools, s');
    ReallocatedSeparate(e, pools, s.containers, s'.pools, s'.containers);
    hide Separated, Accounted;
  }

  lemma ReallocatedSeparate(e: Env, pools: map<string, PoolView>, cs: map<string, Container>,
                            pools': map<string, PoolView>, cs': map<string, Container>)
    requires Apart(pools) && Reallocated(e, pools, cs, pools', cs')
    ensures Separated(pools')
  {
    hide ContainersOk, Exclusive;
    forall p, q | p in pools' && q in pools' && p != q ensures Footprint(pools'[p]) !! Footprint(pools'[q]) {
      assert Footprint(pools[p]) !! Footprint(pools[q]);
    }
  }

  lemma ReallocatedAccounts(e: Env, s: State, cfg: NodeConfig, pools: map<string, PoolView>, s': State)
    requires Sound(s) && ActivatesTo(s.pools, cfg, pools)
    requires Reallocated(e, pools, s.containers, s'.pools, s'.containers)
    ensures Accounted(s'.pools, s'.containers)
  {
    hide Separated, Apart, Footprint, NewCpus, NewConfig;
    forall p | p in pools ensures s'.pools[p].used == Sum(Uses(s'.containers, p)) {
      SameUses(s.containers, s'.containers, p);
      if p !in s.pools { NoUses(s.containers, p); }
    }
  }

  lemma SameUses(cs: map<string, Container>, cs': map<string, Container>, p: string)
    requires cs'.Keys == cs.Keys
    requires forall id :: id in cs ==> cs'[id] == cs[id].(cpus := cs'[id].cpus) && |cs'[id].cpus| == |cs[id].cpus|
    ensures Uses(cs', p) == Uses(cs, p)
  {
    forall id | id in cs ensures cs'[id].cpus == {} <==> cs[id].cpus == {} { }
  }

  lemma {:induction false} NoUses(cs: map<string, Container>, p: string)
    requires forall id :: id in cs ==> cs[id].pool != p
    ensures Sum(Uses(cs, p)) == 0
  {
    if Uses(cs, p) != map[] {
      var id := Pick(Uses(cs, p).Keys);
      NoUses(cs - {id}, p);
      SumRemove(Uses(cs, p), id);
      assert Uses(cs, p) - {id} == Uses(cs - {id}, p);
    }
  }

  /** If every pool keeps its pinned CPUs, shared and pinned CPUs together are exactly the configured ones. */
  lemma PartitionAfter(e: Env, s: State, cfg: NodeConfig, order: seq<string>, s': State, p: string)
    requires ValidEnv(e) && Sound(s) && Gentle(e, s, cfg)
    requires IsOrder(order, cfg.Keys) && Accepts(e.m, Busy(s.pools), cfg, order) && Accepted(e, s, cfg, order, s')
    requires p in cfg && PinnedOf(s.pools, p) <= NewCpus(s.pools, s'.currentCfg, p)
    ensures p in s'.pools && p in s'.currentCfg && s'.currentCfg[p].cpus.Some?
    ensures s'.pools[p].shared !! s'.pools[p].pinned
    ensures s'.pools[p].shared + s'.pools[p].pinned == s'.currentCfg[p].cpus.value
  {
    var pools := AcceptedReallocates(e, s, cfg, order, s');
    hide *;
    PartitionOf(e, s.pools, s'.currentCfg, pools, s.containers, s'.pools, s'.containers, p);
  }

  lemma PartitionOf(e: Env, pools0: map<string, PoolView>, cfg: NodeConfig, pools: map<string, PoolView>,
                    cs: map<string, Container>,
                    pools': map<string, PoolView>, cs': map<string, Container>, p: string)
    requires FullConfig(cfg) && ActivatesTo(pools0, cfg, pools) && Reallocated(e, pools, cs, pools', cs')
    requires p in cfg && PinnedOf(pools0, p) <= NewCpus(pools0, cfg, p)
    ensures p in pools' && cfg[p].cpus.Some?
    ensures pools'[p].shared !! pools'[p].pinned && pools'[p].shared + pools'[p].pinned == cfg[p].cpus.value
  {
    hide ContainersOk, Exclusive;
    assert p in pools;
    ActivatedFootprint(pools0, cfg, pools, p);
  }

  lemma ReallocatingStart(e: Env, pools: map<string, PoolView>, cs: map<string, Container>)
    requires CanReallocate(e, pools, cs)
    ensures Reallocating(e, pools, cs, map[], cs, ResetSoFar(pools, pools.Keys), cs)
  {
    CanCovers(e, pools, cs);
    hide *;
    var none: map<string, Container> := map[];
    forall p | p in pools
      ensures p in ResetSoFar(pools, pools.Keys) &&
              Serves(e, pools[p], ResetSoFar(pools, pools.Keys)[p], Exclusive(none, p), Exclusive(cs, p),
                     AtMostOne(cs, p))
    {
      StartServes(e, pools, cs, p);
    }
    NothingDone(e, pools, cs, ResetSoFar(pools, pools.Keys));
  }

  lemma CanCovers(e: Env, pools: map<string, PoolView>, cs: map<string, Container>)
    requires CanReallocate(e, pools, cs)
    ensures CoversAll(e, pools, cs)
  {
  }

  lemma NothingDone(e: Env, pools: map<string, PoolView>, cs: map<string, Container>, reset: map<string, PoolView>)
    requires CanReallocate(e, pools, cs)
    requires reset == ResetSoFar(pools, pools.Keys)
    requires forall p :: p in pools ==>
        p in reset && Serves(e, pools[p], reset[p], Exclusive(map[], p), Exclusive(cs, p), AtMostOne(cs, p))
    ensures Reallocating(e, pools, cs, map[], cs, reset, cs)
  {
    hide Serves, Exclusive, Covers;
    var none: map<string, Container> := map[];
    assert none + cs == cs;
  }

  lemma StartServes(e: Env, pools: map<string, PoolView>, cs: map<string, Container>, p: string)
    requires CoversAll(e, pools, cs) && p in pools
    ensures p in ResetSoFar(pools, pools.Keys)
    ensures Serves(e, pools[p], ResetSoFar(pools, pools.Keys)[p], Exclusive(map[], p), Exclusive(cs, p),
                   AtMostOne(cs, p))
  {
    assert Covers(e, pools[p], Exclusive(cs, p), AtMostOne(cs, p));
    assert Exclusive(map[], p) == {};
    assert ResetSoFar(pools, pools.Keys)[p] == PoolView(Footprint(pools[p]), {}, pools[p].used, pools[p].cfg);
    hide *;
    ServesAll(e, pools[p], Exclusive(cs, p), AtMostOne(cs, p));
  }

  lemma ServesAll(e: Env, pv: PoolView, demand: CPUSet, alone: bool)
    requires Covers(e, pv, demand, alone)
    ensures Serves(e, pv, PoolView(Footprint(pv), {}, pv.used, pv.cfg), {}, demand, alone)
  {
    hide AllocSpec.Usable;
    assert Footprint(pv) + {} == Footprint(pv);
  }

  /** The allocator gives as many CPUs as the container had, and leaves enough for the others. */
  lemma EnoughLeft(t: Topology, offline: CPUSet, from: CPUSet, n: int, result: CPUSet, left: CPUSet, ok: bool,
                   rest: int)
    requires NoDeadCore(t, offline) && AllocSpec.Outcome(t, offline, from, n, result, left, ok)
    requires 0 < n && 0 <= rest && n + rest <= |AllocSpec.Usable(t, offline, from)|
    ensures ok && result <= from && |result| == n && left == from - result
    ensures rest <= |AllocSpec.Usable(t, offline, left)|
  {
    var usable := AllocSpec.Usable(t, offline, from);
    SubsetSize(usable, from);
    AllocSpec.ExactWhenEnough(t, offline, from, n, result, left, ok);
    if |from| != n {
      assert result <= usable;
      assert AllocSpec.Usable(t, offline, left) == usable - result;
      DifferenceSize(usable, result);
    } else {
      assert from - result == {};
    }
  }

  /** One container's exclusive CPUs are replaced; its pool keeps serving the others. */
  lemma ServesNext(e: Env, pv0: PoolView, pv: PoolView, pinned: CPUSet, demand: CPUSet, alone: bool, demand': CPUSet,
                   alone': bool, n: int, result: CPUSet, left: CPUSet, ok: bool)
    requires ValidEnv(e) && Serves(e, pv0, pv, pinned, demand, alone)
    requires 0 < n && |demand| == |demand'| + n && (alone ==> demand' == {})
    requires AllocSpec.Outcome(e.m.topo, e.allocOffline, pv.shared, n, result, left, ok)
    ensures ok && |result| == n && result <= pv.shared && left == pv.shared - result
    ensures Serves(e, pv0, pv.(shared := left, pinned := pv.pinned + result), pinned + result, demand', alone')
  {
    NextSuffices(e, pv.shared, demand, alone, demand', alone', n, result, left, ok);
    ServedUsable(e, pv.shared, n, result, left, ok, Footprint(pv0));
    hide AllocSpec.Outcome, AllocSpec.Usable, ValidEnv, Suffices;
    UnionSize(pinned, result);
    assert left + (pv.pinned + result) == pv.shared + pv.pinned;
  }

  lemma NextSuffices(e: Env, from: CPUSet, demand: CPUSet, alone: bool, demand': CPUSet, alone': bool,
                     n: int, result: CPUSet, left: CPUSet, ok: bool)
    requires ValidEnv(e) && Suffices(e, from, demand, alone)
    requires 0 < n && |demand| == |demand'| + n && (alone ==> demand' == {})
    requires AllocSpec.Outcome(e.m.topo, e.allocOffline, from, n, result, left, ok)
    ensures ok && |result| == n && result <= from && left == from - result
    ensures Suffices(e, left, demand', alone')
  {
    if |demand| <= |AllocSpec.Usable(e.m.topo, e.allocOffline, from)| {
      EnoughLeft(e.m.topo, e.allocOffline, from, n, result, left, ok, |demand'|);
    } else {
      AllTaken(e.m.topo, e.allocOffline, from, n, result, left, ok);
      assert |demand'| == 0;
    }
  }

  /** Whoever asks for all CPUs gets them, usable or not. */
  lemma AllTaken(t: Topology, offline: CPUSet, from: CPUSet, n: int, result: CPUSet, left: CPUSet, ok: bool)
    requires NoDeadCore(t, offline) && AllocSpec.Outcome(t, offline, from, n, result, left, ok) && n == |from|
    ensures ok && result == from && left == from - result
  {
    assert from - from == {};
  }

  /** If anything is left, only usable CPUs were given. */
  lemma ServedUsable(e: Env, from: CPUSet, n: int, result: CPUSet, left: CPUSet, ok: bool, all: CPUSet)
    requires ValidEnv(e) && AllocSpec.Outcome(e.m.topo, e.allocOffline, from, n, result, left, ok) && from <= all
    ensures left == {} || result <= AllocSpec.Usable(e.m.topo, e.allocOffline, all)
  {
  }

  /** The exclusive CPUs of all pools' done containers, one container on. */
  lemma DoneNext(done: map<string, Container>, pools: set<string>, id: string, c: Container, p: string)
    requires ContainersOk(done, pools) && id !in done
    requires ContainersOk(done[id := c], pools)
    ensures Exclusive(done[id := c], p) == Exclusive(done, p) + (if c.pool == p then c.cpus else {})
  {
    assert done[id := c] - {id} == done;
    ExclusiveSplit(done[id := c], id, p);
  }

  lemma DoneOk(e: Env, pools0: map<string, PoolView>, cs0: map<string, Container>, done: map<string, Container>,
               todo: map<string, Container>, pools: map<string, PoolView>, cs: map<string, Container>, id: string,
               c: Container)
    requires Reallocating(e, pools0, cs0, done, todo, pools, cs) && Apart(pools0) && id in todo
    requires c.id == id && c.pool in pools0 && c.cpus <= pools[c.pool].shared
    requires c.cpus != {} ==> Exclusable(c.pool) && c.req == 1000 * |c.cpus|
    ensures ContainersOk(done[id := c], pools0.Keys)
  {
    forall b | b in done ensures done[b].cpus !! c.cpus {
      var q := done[b].pool;
      ExclusiveIn(done, b);
      assert Serves(e, pools0[q], pools[q], Exclusive(done, q), Exclusive(todo, q), AtMostOne(todo, q));
      assert Serves(e, pools0[c.pool], pools[c.pool], Exclusive(done, c.pool), Exclusive(todo, c.pool),
                    AtMostOne(todo, c.pool));
      if q != c.pool {
        assert Footprint(pools0[q]) !! Footprint(pools0[c.pool]);
      }
    }
    hide Serves, Exclusive, Apart;
    ContainersAfterAdding(done, pools0.Keys, id, c);
  }

  /** A container moves on. */
  lemma DividedMoves(cs0: map<string, Container>, done: map<string, Container>, todo: map<string, Container>,
                     cs: map<string, Container>, pools: set<string>, id: string, c: Container)
    requires Divided(cs0, done, todo, cs, pools) && id in todo
    requires c == cs0[id].(cpus := c.cpus) && |c.cpus| == |cs0[id].cpus|
    requires ContainersOk(done[id := c], pools)
    ensures Divided(cs0, done[id := c], todo - {id}, cs[id := c], pools)
  {
    ContainersAfterRemoving(todo, pools, id);
    hide ContainersOk;
    MovedKey(done, todo, id, c);
  }

  lemma MovedKey(done: map<string, Container>, todo: map<string, Container>, id: string, c: Container)
    requires done.Keys !! todo.Keys && id in todo
    ensures (done + todo)[id := c] == done[id := c] + (todo - {id})
    ensures done[id := c].Keys !! (todo - {id}).Keys && (done + todo)[id := c].Keys == (done + todo).Keys
  {
  }

  /** A container without exclusive CPUs is passed over. */
  lemma ReallocatingSkip(e: Env, pools0: map<string, PoolView>, cs0: map<string, Container>,
                         done: map<string, Container>, todo: map<string, Container>,
                         pools: map<string, PoolView>, cs: map<string, Container>, id: string)
    requires Reallocating(e, pools0, cs0, done, todo, pools, cs) && Apart(pools0)
    requires id in todo && todo[id].cpus == {}
    ensures Reallocating(e, pools0, cs0, done[id := todo[id]], todo - {id}, pools, cs)
  {
    var c := todo[id];
    TodoIs(cs0, done, todo, cs, pools0.Keys, id);
    hide Serving;
    NoCpusOk(e, pools0, cs0, done, todo, pools, cs, id);
    DividedMoves(cs0, done, todo, cs, pools0.Keys, id, c);
    hide Divided;
    ServingSkip(e, pools0, cs0, done, todo, pools, cs, id);
  }

  lemma TodoIs(cs0: map<string, Container>, done: map<string, Container>, todo: map<string, Container>,
               cs: map<string, Container>, pools: set<string>, id: string)
    requires Divided(cs0, done, todo, cs, pools) && id in todo
    ensures id in cs0 && todo[id] == cs0[id] && todo[id].id == id && todo[id].pool in pools && id !in done
    ensures todo[id].cpus != {} ==> Exclusable(todo[id].pool) && todo[id].req == 1000 * |todo[id].cpus|
    ensures cs[id := todo[id]] == cs && ContainersOk(todo, pools) && ContainersOk(done, pools)
  {
  }

  lemma NoCpusOk(e: Env, pools0: map<string, PoolView>, cs0: map<string, Container>,
                 done: map<string, Container>, todo: map<string, Container>,
                 pools: map<string, PoolView>, cs: map<string, Container>, id: string)
    requires Reallocating(e, pools0, cs0, done, todo, pools, cs) && Apart(pools0)
    requires id in todo && todo[id].cpus == {}
    ensures ContainersOk(done[id := todo[id]], pools0.Keys)
  {
    TodoIs(cs0, done, todo, cs, pools0.Keys, id);
    DoneOk(e, pools0, cs0, done, todo, pools, cs, id, todo[id]);
  }

  lemma ServingSkip(e: Env, pools0: map<string, PoolView>, cs0: map<string, Container>,
                    done: map<string, Container>, todo: map<string, Container>,
                    pools: map<string, PoolView>, cs: map<string, Container>, id: string)
    requires Reallocating(e, pools0, cs0, done, todo, pools, cs)
    requires id in todo && todo[id].cpus == {} && ContainersOk(done[id := todo[id]], pools0.Keys)
    ensures Serving(e, pools0, pools, done[id := todo[id]], todo - {id})
  {
    TodoIs(cs0, done, todo, cs, pools0.Keys, id);
    hide Divided, ContainersOk, Exclusive, Serves, AtMostOne;
    forall p | p in pools0
      ensures Serves(e, pools0[p], pools[p], Exclusive(done[id := todo[id]], p), Exclusive(todo - {id}, p),
                     AtMostOne(todo - {id}, p))
    {
      Untouched(done, todo, pools0.Keys, id, todo[id], p);
    }
  }

  /** A container that has no exclusive CPUs, or is of another pool, does not matter to a pool. */
  lemma Untouched(done: map<string, Container>, todo: map<string, Container>, pools: set<string>, id: string,
                  c: Container, p: string)
    requires ContainersOk(done, pools) && id !in done && ContainersOk(done[id := c], pools) && id in todo
    requires c.pool == todo[id].pool && (c.pool != p || (c.cpus == {} && todo[id].cpus == {}))
    ensures Exclusive(done[id := c], p) == Exclusive(done, p)
    ensures Exclusive(todo - {id}, p) == Exclusive(todo, p) && AtMostOne(todo - {id}, p) == AtMostOne(todo, p)
  {
    OthersCount(todo, id, p);
    DoneNext(done, pools, id, c, p);
    ExclusiveSplit(todo, id, p);
    var x, y := Exclusive(done, p), Exclusive(todo - {id}, p);
    hide *;
    assert x + {} == x && y + {} == y;
  }

  lemma OthersCount(cs: map<string, Container>, id: string, p: string)
    requires id in cs && !HasExclusive(cs[id], p)
    ensures AtMostOne(cs - {id}, p) == AtMostOne(cs, p)
  {
    var rest := cs - {id};
    hide HasExclusive;
    assert forall a :: a in cs && HasExclusive(cs[a], p) <==> a in rest && HasExclusive(rest[a], p);
  }

  lemma NobodyElse(cs: map<string, Container>, id: string, p: string)
    requires id in cs && HasExclusive(cs[id], p) && AtMostOne(cs, p)
    ensures Exclusive(cs - {id}, p) == {}
  {
    forall a, c | a in cs - {id} && cs[a].pool == p && c in cs[a].cpus ensures false {
      assert HasExclusive(cs[a], p);
    }
  }

  /** A container with exclusive CPUs gets as many of its pool again. */
  lemma ReallocatingStep(e: Env, pools0: map<string, PoolView>, cs0: map<string, Container>,
                         done: map<string, Container>, todo: map<string, Container>,
                         s: State, id: string, s': State, ok: bool, result: CPUSet)
    requires ValidEnv(e) && Reallocating(e, pools0, cs0, done, todo, s.pools, s.containers) && Apart(pools0)
    requires id in todo && todo[id].cpus != {}
    requires TookCpus(e, s, id, todo[id].pool, |todo[id].cpus|, s', ok, result)
    ensures ok && id in s'.containers
    ensures Reallocating(e, pools0, cs0, done[id := s'.containers[id]], todo - {id}, s'.pools, s'.containers)
  {
    TodoIs(cs0, done, todo, s.containers, pools0.Keys, id);
    var p, n := todo[id].pool, |todo[id].cpus|;
    ServedPool(e, pools0, s.pools, done, todo, p);
    var left := TookFrom(e, s, id, p, n, s', ok, result);
    hide TookCpus, AllocSpec.Outcome;
    TookEnough(e, pools0, cs0, done, todo, s, id, n, result, left, ok);
    var c := Container(id, p, result, 1000 * n);
    DoneOk(e, pools0, cs0, done, todo, s.pools, s.containers, id, c);
    hide Serves, Exclusive, ContainersOk, Apart;
    DividedMoves(cs0, done, todo, s.containers, pools0.Keys, id, c);
    hide Divided;
    ServingNext(e, pools0, done, todo, s, id, c, left);
  }

  lemma ServingNext(e: Env, pools0: map<string, PoolView>, done: map<string, Container>, todo: map<string, Container>,
                    s: State, id: string, c: Container, left: CPUSet)
    requires Serving(e, pools0, s.pools, done, todo) && ContainersOk(done, pools0.Keys) && id !in done
    requires id in todo && ContainersOk(done[id := c], pools0.Keys) && c.pool == todo[id].pool && c.pool in s.pools
    requires c.pool in pools0 &&
             Serves(e, pools0[c.pool], s.pools[c.pool].(shared := left, pinned := s.pools[c.pool].pinned + c.cpus),
                    Exclusive(done, c.pool) + c.cpus, Exclusive(todo - {id}, c.pool), AtMostOne(todo - {id}, c.pool))
    ensures Serving(e, pools0, WithCpus(s, id, c.pool, c.cpus, left).pools, done[id := c], todo - {id})
  {
    hide Serves, Exclusive, ContainersOk, AtMostOne;
    forall q | q in pools0
      ensures Serves(e, pools0[q], WithCpus(s, id, c.pool, c.cpus, left).pools[q], Exclusive(done[id := c], q),
                     Exclusive(todo - {id}, q), AtMostOne(todo - {id}, q))
    {
      NextServes(e, pools0, done, todo, s, id, c, left, q);
    }
  }

  lemma ServedPool(e: Env, pools0: map<string, PoolView>, pools: map<string, PoolView>,
                   done: map<string, Container>, todo: map<string, Container>, p: string)
    requires Serving(e, pools0, pools, done, todo) && p in pools0
    ensures p in pools
  {
  }

  lemma TookEnough(e: Env, pools0: map<string, PoolView>, cs0: map<string, Container>,
                   done: map<string, Container>, todo: map<string, Container>,
                   s: State, id: string, n: int, result: CPUSet, left: CPUSet, ok: bool)
    requires ValidEnv(e) && Reallocating(e, pools0, cs0, done, todo, s.pools, s.containers)
    requires id in todo && todo[id].cpus != {} && n == |todo[id].cpus| && todo[id].pool in s.pools &&
        todo[id].pool in pools0
    requires AllocSpec.Outcome(e.m.topo, e.allocOffline, s.pools[todo[id].pool].shared, n, result, left, ok)
    ensures
      var p := todo[id].pool;
      && ok && |result| == n && result <= s.pools[p].shared
      && Serves(e, pools0[p], s.pools[p].(shared := left, pinned := s.pools[p].pinned + result),
                Exclusive(done, p) + result, Exclusive(todo - {id}, p), AtMostOne(todo - {id}, p))
  {
    var p := todo[id].pool;
    assert Serves(e, pools0[p], s.pools[p], Exclusive(done, p), Exclusive(todo, p), AtMostOne(todo, p));
    WithoutContainer(todo, pools0.Keys, id, p);
    assert 0 < n by {
      assert Pick(todo[id].cpus) in todo[id].cpus;
    }
    assert HasExclusive(todo[id], p);
    hide *;
    if AtMostOne(todo, p) {
      NobodyElse(todo, id, p);
    }
    ServesNext(e, pools0[p], s.pools[p], Exclusive(done, p), Exclusive(todo, p), AtMostOne(todo, p),
               Exclusive(todo - {id}, p), AtMostOne(todo - {id}, p), n, result, left, ok);
  }

  lemma NextServes(e: Env, pools0: map<string, PoolView>,
                   done: map<string, Container>, todo: map<string, Container>,
                   s: State, id: string, c': Container, left: CPUSet, q: string)
    requires Serving(e, pools0, s.pools, done, todo) && ContainersOk(done, pools0.Keys) && id !in done
    requires id in todo && ContainersOk(done[id := c'], pools0.Keys) && c'.pool == todo[id].pool && q in pools0
    requires q == c'.pool ==>
               Serves(e, pools0[q], s.pools[q].(shared := left, pinned := s.pools[q].pinned + c'.cpus),
                      Exclusive(done, q) + c'.cpus, Exclusive(todo - {id}, q), AtMostOne(todo - {id}, q))
    ensures
      var pv := if q == c'.pool then s.pools[q].(shared := left, pinned := s.pools[q].pinned + c'.cpus) else s.pools[q];
      Serves(e, pools0[q], pv, Exclusive(done[id := c'], q), Exclusive(todo - {id}, q), AtMostOne(todo - {id}, q))
  {
    hide ContainersOk, Exclusive, Serves, AtMostOne;
    if q != c'.pool {
      Untouched(done, todo, pools0.Keys, id, c', q);
    } else {
      DoneNext(done, pools0.Keys, id, c', q);
    }
  }

  lemma ReallocatingEnd(e: Env, pools0: map<string, PoolView>, cs0: map<string, Container>,
                        done: map<string, Container>, pools: map<string, PoolView>, cs: map<string, Container>)
    requires Reallocating(e, pools0, cs0, done, map[], pools, cs)
    ensures Reallocated(e, pools0, cs0, pools, cs)
  {
    hide Covers, ContainersOk, ReallocatedPool, Serves, Exclusive;
    assert done + map[] == done;
    forall p | p in pools0 ensures ReallocatedPool(e, pools0[p], pools[p], Exclusive(cs, p)) {
      EndServes(e, pools0[p], pools[p], done, p);
    }
  }

  lemma EndServes(e: Env, pv0: PoolView, pv: PoolView, done: map<string, Container>, p: string)
    requires Serves(e, pv0, pv, Exclusive(done, p), Exclusive(map[], p), AtMostOne(map[], p))
    ensures ReallocatedPool(e, pv0, pv, Exclusive(done, p))
  {
    assert Exclusive(map[], p) == {};
  }

  /** After any number of turns, the containers that had theirs pin what they got, and enough is left for the others. */
  lemma {:induction false} ReachedReallocating(e: Env, pools0: map<string, PoolView>, cs0: map<string, Container>,
                                               order: seq<string>, pools: map<string, PoolView>,
                                               cs: map<string, Container>)
    returns (done: map<string, Container>, todo: map<string, Container>)
    requires ValidEnv(e) && CanReallocate(e, pools0, cs0) && Distinct(order) && Members(order) <= cs0.Keys
    requires Reached(e, ResetSoFar(pools0, pools0.Keys), cs0, order, pools, cs)
    ensures Reallocating(e, pools0, cs0, done, todo, pools, cs) && todo.Keys == cs0.Keys - Members(order)
    decreases |order|
  {
    if order == [] {
      hide CanReallocate, Reallocating, ResetSoFar, ValidEnv;
      ReallocatingStart(e, pools0, cs0);
      done, todo := map[], cs0;
    } else {
      hide *;
      var last, before := order[|order| - 1], order[..|order| - 1];
      MembersSnoc(order);
      var p, c := LastTurn(e, ResetSoFar(pools0, pools0.Keys), cs0, order, pools, cs);
      done, todo := ReachedReallocating(e, pools0, cs0, before, p, c);
      done, todo := TurnTaken(e, pools0, cs0, done, todo, p, c, last, pools, cs);
    }
  }

  lemma LastTurn(e: Env, pools0: map<string, PoolView>, cs0: map<string, Container>,
                 order: seq<string>, pools: map<string, PoolView>, cs: map<string, Container>)
    returns (p: map<string, PoolView>, c: map<string, Container>)
    requires ValidEnv(e) && order != [] && Reached(e, pools0, cs0, order, pools, cs)
    ensures Reached(e, pools0, cs0, order[..|order| - 1], p, c)
    ensures AllocationStep(e, p, c, order[|order| - 1], pools, cs)
  {
    hide AllocationStep;
    var before, last := order[..|order| - 1], order[|order| - 1];
    p, c :| Reached(e, pools0, cs0, before, p, c) && AllocationStep(e, p, c, last, pools, cs);
  }

  lemma TurnTaken(e: Env, pools0: map<string, PoolView>, cs0: map<string, Container>,
                  done: map<string, Container>, todo: map<string, Container>,
                  pools: map<string, PoolView>, cs: map<string, Container>, id: string,
                  pools': map<string, PoolView>, cs': map<string, Container>)
    returns (done': map<string, Container>, todo': map<string, Container>)
    requires ValidEnv(e) && CanReallocate(e, pools0, cs0) && Reallocating(e, pools0, cs0, done, todo, pools, cs) &&
        id in todo
    requires AllocationStep(e, pools, cs, id, pools', cs')
    ensures Reallocating(e, pools0, cs0, done', todo', pools', cs') && todo'.Keys == todo.Keys - {id}
  {
    hide *;
    ReallocationApart(e, pools0, cs0);
    TodoNow(e, pools0, cs0, done, todo, pools, cs, id);
    todo' := todo - {id};
    var s, s', result := TurnIs(e, pools, cs, id, pools', cs');
    if todo[id].cpus == {} {
      ReallocatingSkip(e, pools0, cs0, done, todo, pools, cs, id);
      done' := done[id := todo[id]];
    } else {
      ReallocatingStep(e, pools0, cs0, done, todo, s, id, s', true, result);
      done' := done[id := s'.containers[id]];
    }
  }

  /** A turn, as the allocation it stands for. */
  lemma TurnIs(e: Env, pools: map<string, PoolView>, cs: map<string, Container>, id: string,
               pools': map<string, PoolView>, cs': map<string, Container>) returns (s: State, s': State, result: CPUSet)
    requires ValidEnv(e) && AllocationStep(e, pools, cs, id, pools', cs')
    ensures id in cs
    ensures cs[id].cpus == {} ==> pools' == pools && cs' == cs
    ensures cs[id].cpus != {} ==>
              && s.pools == pools && s.containers == cs && s'.pools == pools' && s'.containers == cs'
              && TookCpus(e, s, id, cs[id].pool, |cs[id].cpus|, s', true, result)
  {
    hide TookCpus;
    if cs[id].cpus != {} {
      s, s', result :| && AllocatedAgain(e, s, id, s', true, result)
                       && s.pools == pools && s.containers == cs && s'.pools == pools' && s'.containers == cs';
    } else {
      s, s', result := *, *, *;
    }
  }

  lemma ReallocationApart(e: Env, pools: map<string, PoolView>, cs: map<string, Container>)
    requires CanReallocate(e, pools, cs)
    ensures Apart(pools)
  {
  }

  lemma TodoNow(e: Env, pools0: map<string, PoolView>, cs0: map<string, Container>,
                done: map<string, Container>, todo: map<string, Container>,
                pools: map<string, PoolView>, cs: map<string, Container>, id: string)
    requires Reallocating(e, pools0, cs0, done, todo, pools, cs) && id in todo
    ensures id in cs && cs[id] == todo[id]
  {
  }

  /** When every pool can serve its containers again, every container gets its turn, in any order, and no turn fails. */
  lemma ReallocatesMeans(e: Env, pools: map<string, PoolView>, cs: map<string, Container>,
                         pools': map<string, PoolView>, cs': map<string, Container>)
    requires ValidEnv(e) && CanReallocate(e, pools, cs) && Reallocates(e, pools, cs, pools', cs')
    ensures Reallocated(e, pools, cs, pools', cs')
  {
    var order :| ReallocatesIn(e, pools, cs, order, pools', cs');
    hide Reached, CanReallocate, Reallocating, Reallocated, Reallocates, ValidEnv, Distinct, Members, AllocationFails;
    AllHaveTurns(e, pools, cs, order, pools', cs');
    var done, todo := ReachedReallocating(e, pools, cs, order, pools', cs');
    assert todo == map[];
    ReallocatingEnd(e, pools, cs, done, pools', cs');
  }

  lemma AllHaveTurns(e: Env, pools: map<string, PoolView>, cs: map<string, Container>, order: seq<string>,
                     pools': map<string, PoolView>, cs': map<string, Container>)
    requires ValidEnv(e) && CanReallocate(e, pools, cs) && ReallocatesIn(e, pools, cs, order, pools', cs')
    ensures Members(order) == cs.Keys
  {
    hide Reached, CanReallocate, Reallocating, ValidEnv, Distinct, Members, AllocationFails;
    if Members(order) != cs.Keys {
      var done, todo := ReachedReallocating(e, pools, cs, order, pools', cs');
      var id :| id in cs.Keys - Members(order) && AllocationFails(e, pools', cs', id);
      NoTurnFails(e, pools, cs, done, todo, pools', cs', id);
    }
  }

  lemma NoTurnFails(e: Env, pools0: map<string, PoolView>, cs0: map<string, Container>,
                    done: map<string, Container>, todo: map<string, Container>,
                    pools: map<string, PoolView>, cs: map<string, Container>, id: string)
    requires ValidEnv(e) && CanReallocate(e, pools0, cs0) && Reallocating(e, pools0, cs0, done, todo, pools, cs) &&
        id in todo
    ensures !AllocationFails(e, pools, cs, id)
  {
    ReallocationApart(e, pools0, cs0);
    TodoNow(e, pools0, cs0, done, todo, pools, cs, id);
    hide CanReallocate, Reallocating, TookCpus, Apart, ValidEnv;
    if AllocationFails(e, pools, cs, id) {
      var s, s', result :| AllocatedAgain(e, s, id, s', false, result) && s.pools == pools && s.containers == cs;
      ReallocatingStep(e, pools0, cs0, done, todo, s, id, s', false, result);
    }
  }

  // Footprints

  /** Every pool keeps its CPUs and enough of them for its containers still to come, whatever other pools hold. */
  ghost predicate Holding(e: Env, pools0: map<string, PoolView>, todo: map<string, Container>,
                          pools: map<string, PoolView>)
  {
    && pools.Keys == pools0.Keys
    && forall p :: p in pools0 ==>
         Serves(e, pools0[p], pools[p], pools[p].pinned, Exclusive(todo, p), AtMostOne(todo, p))
  }

  lemma HoldingStart(e: Env, pools: map<string, PoolView>, cs: map<string, Container>)
    requires CoversAll(e, pools, cs)
    ensures Holding(e, pools, cs, ResetSoFar(pools, pools.Keys))
  {
    hide CoversAll, Serves, Exclusive, Footprint, AtMostOne;
    forall p | p in pools
      ensures Serves(e, pools[p], ResetSoFar(pools, pools.Keys)[p], {}, Exclusive(cs, p), AtMostOne(cs, p))
    {
      StartServes(e, pools, cs, p);
      NobodysCpus(p);
    }
  }

  lemma NobodysCpus(p: string)
    ensures Exclusive(map[], p) == {}
  {
  }

  /** The allocation a turn stands for, in a pool that holds. */
  lemma HeldPool(e: Env, pools0: map<string, PoolView>, todo: map<string, Container>,
                 s: State, id: string, s': State, result: CPUSet)
    returns (left: CPUSet)
    requires ValidEnv(e) && Holding(e, pools0, todo, s.pools) && ContainersOk(todo, pools0.Keys)
    requires id in todo && todo[id].cpus != {}
    requires TookCpus(e, s, id, todo[id].pool, |todo[id].cpus|, s', true, result)
    ensures todo[id].pool in pools0 && todo[id].pool in s.pools
    ensures s' == WithCpus(s, id, todo[id].pool, result, left)
    ensures
      var p := todo[id].pool;
      Serves(e, pools0[p], s.pools[p].(shared := left, pinned := s.pools[p].pinned + result),
             s.pools[p].pinned + result, Exclusive(todo - {id}, p), AtMostOne(todo - {id}, p))
  {
    var p, n := todo[id].pool, |todo[id].cpus|;
    assert p in pools0 && Exclusable(p);
    left := TookFrom(e, s, id, p, n, s', true, result);
    WithoutContainer(todo, pools0.Keys, id, p);
    assert 0 < n by {
      assert Pick(todo[id].cpus) in todo[id].cpus;
    }
    assert Serves(e, pools0[p], s.pools[p], s.pools[p].pinned, Exclusive(todo, p), AtMostOne(todo, p));
    assert HasExclusive(todo[id], p);
    hide *;
    if AtMostOne(todo, p) {
      NobodyElse(todo, id, p);
    }
    ServesNext(e, pools0[p], s.pools[p], s.pools[p].pinned, Exclusive(todo, p), AtMostOne(todo, p),
               Exclusive(todo - {id}, p), AtMostOne(todo - {id}, p), n, result, left, true);
  }

  /** One container has its turn. */
  lemma HoldingTurn(e: Env, pools0: map<string, PoolView>, todo: map<string, Container>,
                    pools: map<string, PoolView>, cs: map<string, Container>, id: string,
                    pools': map<string, PoolView>, cs': map<string, Container>)
    requires ValidEnv(e) && Holding(e, pools0, todo, pools) && ContainersOk(todo, pools0.Keys)
    requires id in todo && id in cs && cs[id] == todo[id] && AllocationStep(e, pools, cs, id, pools', cs')
    ensures Holding(e, pools0, todo - {id}, pools')
    ensures OnlyOne(cs, id, cs')
  {
    hide *;
    var s, s', result := TurnIs(e, pools, cs, id, pools', cs');
    if todo[id].cpus == {} {
      HoldingSkip(e, pools0, todo, pools, id);
      OnlyOneSame(cs, id);
    } else {
      var left := HeldPool(e, pools0, todo, s, id, s', result);
      HoldingNext(e, pools0, todo, s, id, result, left);
    }
  }

  lemma HoldingSkip(e: Env, pools0: map<string, PoolView>, todo: map<string, Container>, pools: map<string, PoolView>,
                    id: string)
    requires Holding(e, pools0, todo, pools) && id in todo && todo[id].cpus == {}
    ensures Holding(e, pools0, todo - {id}, pools)
  {
    hide Serves, Exclusive, AtMostOne;
    forall p | p in pools0
      ensures Exclusive(todo - {id}, p) == Exclusive(todo, p) && AtMostOne(todo - {id}, p) == AtMostOne(todo, p)
    {
      NotItsCpus(todo, id, p);
    }
  }

  lemma HoldingNext(e: Env, pools0: map<string, PoolView>, todo: map<string, Container>, s: State, id: string,
                    result: CPUSet, left: CPUSet)
    requires Holding(e, pools0, todo, s.pools) && id in todo && todo[id].pool in pools0 && todo[id].pool in s.pools
    requires
      var p := todo[id].pool;
      Serves(e, pools0[p], s.pools[p].(shared := left, pinned := s.pools[p].pinned + result),
             s.pools[p].pinned + result, Exclusive(todo - {id}, p), AtMostOne(todo - {id}, p))
    ensures
      var s' := WithCpus(s, id, todo[id].pool, result, left);
      Holding(e, pools0, todo - {id}, s'.pools) && OnlyOne(s.containers, id, s'.containers)
  {
    hide Serves, Exclusive, Measure, AtMostOne;
    forall p | p in pools0 && p != todo[id].pool
      ensures Exclusive(todo - {id}, p) == Exclusive(todo, p) && AtMostOne(todo - {id}, p) == AtMostOne(todo, p)
    {
      NotItsCpus(todo, id, p);
    }
  }

  lemma OnlyOneSame(cs: map<string, Container>, id: string)
    ensures OnlyOne(cs, id, cs)
  {
  }

  /** At most one container changed. */
  ghost predicate OnlyOne(cs: map<string, Container>, id: string, cs': map<string, Container>) {
    cs.Keys <= cs'.Keys && forall other :: other in cs && other != id ==> cs'[other] == cs[other]
  }

  lemma NotItsCpus(cs: map<string, Container>, id: string, p: string)
    requires id in cs && (cs[id].pool != p || cs[id].cpus == {})
    ensures Exclusive(cs - {id}, p) == Exclusive(cs, p) && AtMostOne(cs - {id}, p) == AtMostOne(cs, p)
  {
    OthersCount(cs, id, p);
    ExclusiveSplit(cs, id, p);
    var x := Exclusive(cs - {id}, p);
    hide *;
    assert x + {} == x;
  }

  lemma {:induction false} ReachedHolding(e: Env, pools0: map<string, PoolView>, cs0: map<string, Container>,
                                          order: seq<string>, pools: map<string, PoolView>, cs: map<string, Container>)
    requires ValidEnv(e) && CoversAll(e, pools0, cs0) && Distinct(order) && Members(order) <= cs0.Keys
    requires Reached(e, ResetSoFar(pools0, pools0.Keys), cs0, order, pools, cs)
    ensures Holding(e, pools0, cs0 - Members(order), pools)
    ensures Untaken(cs0, Members(order), cs)
    decreases |order|
  {
    if order == [] {
      hide CoversAll, Holding, ResetSoFar, ValidEnv;
      HoldingStart(e, pools0, cs0);
      assert cs0 - Members([]) == cs0;
    } else {
      hide *;
      var last, before := order[|order| - 1], order[..|order| - 1];
      MembersSnoc(order);
      var p, c := LastTurn(e, ResetSoFar(pools0, pools0.Keys), cs0, order, pools, cs);
      ReachedHolding(e, pools0, cs0, before, p, c);
      var todo := cs0 - Members(before);
      RestOk(e, pools0, cs0, Members(before), c, last);
      HoldingTurn(e, pools0, todo, p, c, last, pools, cs);
      StillUntaken(cs0, Members(before), c, last, cs);
      assert todo - {last} == cs0 - Members(order);
    }
  }

  /** The containers not among the given ones are as they were. */
  ghost predicate Untaken(cs0: map<string, Container>, taken: set<string>, cs: map<string, Container>) {
    forall id :: id in cs0 && id !in taken ==> id in cs && cs[id] == cs0[id]
  }

  lemma RestOk(e: Env, pools0: map<string, PoolView>, cs0: map<string, Container>, taken: set<string>,
               cs: map<string, Container>, id: string)
    requires CoversAll(e, pools0, cs0) && Untaken(cs0, taken, cs) && id in cs0 && id !in taken
    ensures
      var todo := cs0 - taken;
      ContainersOk(todo, pools0.Keys) && id in todo && id in cs && cs[id] == todo[id]
  {
    CoveredOk(e, pools0, cs0);
    hide ContainersOk, CoversAll;
    OkWithout(cs0, pools0.Keys, taken);
  }

  lemma CoveredOk(e: Env, pools: map<string, PoolView>, cs: map<string, Container>)
    requires CoversAll(e, pools, cs)
    ensures ContainersOk(cs, pools.Keys)
  {
    hide Covers, ContainersOk;
  }

  lemma OkWithout(cs: map<string, Container>, pools: set<string>, gone: set<string>)
    requires ContainersOk(cs, pools)
    ensures ContainersOk(cs - gone, pools)
  {
    var rest := cs - gone;
    forall a, b | a in rest && b in rest && a != b ensures rest[a].cpus !! rest[b].cpus {
      assert cs[a].cpus !! cs[b].cpus;
    }
  }

  lemma StillUntaken(cs0: map<string, Container>, taken: set<string>, cs: map<string, Container>, id: string,
                     cs': map<string, Container>)
    requires Untaken(cs0, taken, cs) && OnlyOne(cs, id, cs')
    ensures Untaken(cs0, taken + {id}, cs')
  {
  }

  /** Reallocation, in whatever order and even where pools overlap, keeps the CPUs of every pool. */
  lemma ReallocatesKeepFootprints(e: Env, pools: map<string, PoolView>, cs: map<string, Container>,
                                  pools': map<string, PoolView>, cs': map<string, Container>)
    requires ValidEnv(e) && CoversAll(e, pools, cs) && Reallocates(e, pools, cs, pools', cs')
    ensures pools'.Keys == pools.Keys && forall p :: p in pools ==> Footprint(pools'[p]) == Footprint(pools[p])
  {
    var order :| ReallocatesIn(e, pools, cs, order, pools', cs');
    hide Reached, CoversAll, ValidEnv, Distinct, Members, AllocationFails;
    ReachedHolding(e, pools, cs, order, pools', cs');
    hide Exclusive, Footprint;
  }

  lemma SameApart(pools: map<string, PoolView>, pools': map<string, PoolView>)
    requires pools'.Keys == pools.Keys && forall p :: p in pools ==> Footprint(pools'[p]) == Footprint(pools[p])
    ensures Apart(pools') <==> Apart(pools)
  {
    hide Footprint;
  }

  /** Whether or not it names every pool: a configuration that leaves every pool enough usable CPUs leaves the pools
      apart, when it is taken in use, exactly if it gives no pool's pinned CPUs to another pool and nothing to anyone
      that a dropped pool keeps. */
  lemma ApartIff(e: Env, s: State, cfg: NodeConfig, order: seq<string>, s': State)
    requires ValidEnv(e) && Sound(s) && AllConfigured(s.pools) && Ready(cfg) && NoneOverlooked(cfg)
    requires IsOrder(order, cfg.Keys) && Accepts(e.m, Busy(s.pools), cfg, order) && Accepted(e, s, cfg, order, s')
    requires LeavesEnough(e, s, Resolved(e.m, cfg))
    ensures Apart(s'.pools) <==> KeepsApart(s.pools, Resolved(e.m, cfg))
  {
    hide *;
    AcceptedMeans(e, s, cfg, order, s');
    EnvMachine(e);
    ResolvedIsFull(e.m, Busy(s.pools), cfg);
    SoundPinnedApart(s);
    var r := Resolved(e.m, cfg);
    var pools := Activated(s.pools, r);
    ActivatedIs(s.pools, r);
    ActivatedApartIff(s.pools, r, pools);
    ActivatedCanReallocate(e, s, r, pools);
    ActivationReallocates(e, s, s');
    ReallocatesKeepFootprints(e, pools, s.containers, s'.pools, s'.containers);
    SameApart(pools, s'.pools);
  }

  lemma EnvMachine(e: Env)
    requires ValidEnv(e)
    ensures ValidMachine(e.m)
  {
  }

  lemma ActivationReallocates(e: Env, s: State, s': State)
    requires ValidEnv(e) && Activation(e, s, s')
    ensures Reallocates(e, Activated(s.pools, s'.currentCfg), s.containers, s'.pools, s'.containers)
    ensures s'.cache == ExpectedCache(s'.pools)
  {
    hide Reallocates, Activated;
  }
}
