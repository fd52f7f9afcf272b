/** The pool set: CPU pools, the containers assigned to them, and their configuration. */
module Pools {
  import opened CpuSets
  import opened Topology
  import opened Sysfs
  import opened Allocator
  import opened NodeConfigs
  import opened Preparation
  import opened PoolMetrics
  import opened PoolState
  import opened Reconciliation
  import opened Settings
  import AllocSpec

  class Pool {
    var shared: CPUSet
    var pinned: CPUSet
    var used: int
    var cfg: Option<Config>

    constructor (shared: CPUSet, pinned: CPUSet, used: int, cfg: Option<Config>)
      ensures View() == PoolView(shared, pinned, used, cfg)
    {
      this.shared := shared;
      this.pinned := pinned;
      this.used := used;
      this.cfg := cfg;
    }

    function View(): PoolView
      reads this
    {
      PoolView(shared, pinned, used, cfg)
    }
  }

  class PoolSet {
    const sys: System
    const lookups: SysfsSingleton
    const metrics: Metrics
    const isolated: CPUSet
    var pools: map<string, Pool>
    var containers: map<string, Container>
    var offlined: CPUSet
    var currentCfg: NodeConfig
    var pendingCfg: Option<NodeConfig>

    ghost function Objects(): set<Pool>
      reads this`pools
    {
      set p | p in pools :: pools[p]
    }

    /** No two names share a pool object. */
    ghost predicate Unaliased()
      reads this`pools
    {
      forall p, q :: p in pools && q in pools && p != q ==> pools[p] != pools[q]
    }

    /** The node's two discovered systems and the kernel below them. */
    ghost predicate Surroundings()
      reads sys, sys.kernel, lookups, lookups.sys
    {
      && sys.kernel.Valid() && sys.Discovered() && sys.InSync()
      && lookups.Valid() && lookups.sys != sys && lookups.sys.kernel == sys.kernel
      && isolated <= sys.kernel.topo.Keys
    }

    ghost function Environment(): Env
      reads lookups.sys
    {
      Env(Machine(sys.kernel.topo, isolated), lookups.sys.offline)
    }

    ghost function Views(): map<string, PoolView>
      reads this`pools, Objects()
    {
      map p | p in pools :: pools[p].View()
    }

    ghost function Abs(): State
      reads this, Objects(), metrics, sys.kernel
    {
      State(Views(), containers, offlined, currentCfg, pendingCfg, metrics.pools, sys.kernel.online)
    }

    lemma AbsIs()
      ensures Abs() == State(Views(), containers, offlined, currentCfg, pendingCfg, metrics.pools, sys.kernel.online)
      ensures Views().Keys == pools.Keys && Abs().pools.Keys == pools.Keys
    {
    }

    lemma EnvironmentIs()
      requires Surroundings()
      ensures Environment() == Env(Machine(sys.kernel.topo, isolated), lookups.sys.offline)
      ensures ValidEnv(Environment())
      ensures lookups.Valid()
    {
    }

    /** NewPoolSet without a configuration, over discovered systems. */
    constructor (sys: System, lookups: SysfsSingleton, metrics: Metrics, isolated: CPUSet)
      requires sys.kernel.Valid() && sys.Discovered() && sys.InSync()
      requires lookups.Valid() && lookups.sys != sys && lookups.sys.kernel == sys.kernel
      requires isolated <= sys.kernel.topo.Keys
      ensures Unaliased() && Surroundings() && Objects() == {}
      ensures this.sys == sys && this.lookups == lookups && this.metrics == metrics && this.isolated == isolated
      ensures Abs() == State(map[], map[], {}, map[], None, metrics.pools, sys.kernel.online)
    {
      this.sys := sys;
      this.lookups := lookups;
      this.metrics := metrics;
      this.isolated := isolated;
      pools := map[];
      containers := map[];
      offlined := {};
      currentCfg := map[];
      pendingCfg := None;
    }

    /** getPoolMetrics, getPoolCPUSets and getPoolUsage, and the update of the cache with what they return. */
    method UpdatePoolMetrics(pool: string)
      modifies metrics
      ensures metrics.pools == Measure(old(metrics.pools), Views(), pool)
      ensures Views() == old(Views())
      ensures metrics.pools == if pool !in pools || pool in {"reserved", ""} then old(metrics.pools) else
        var p := pools[pool];
        old(metrics.pools)[pool := PoolData(pool, p.shared, p.pinned, 1000 * (|p.shared| + |p.pinned|),
                                            1000 * |p.pinned| + p.used)]
    {
      if pool in pools && pool != RESERVED {
        var p := pools[pool];
        if pool != "" {
          metrics.UpdatePool(pool, p.shared, p.pinned, 1000 * (|p.shared| + |p.pinned|), 1000 * |p.pinned| + p.used);
        }
      }
    }

    /** Update a pool in place. */
    method ChangePool(pool: string, shared: CPUSet, pinned: CPUSet, used: int)
      requires pool in pools && Unaliased()
      modifies pools[pool]
      ensures Views() == old(Views())[pool := PoolView(shared, pinned, used, old(pools[pool].cfg))]
    {
      var p := pools[pool];
      p.shared := shared;
      p.pinned := pinned;
      p.used := used;
    }

    lemma PoolIs(pool: string)
      requires pool in pools
      ensures pool in Views() &&
          Views()[pool] == PoolView(pools[pool].shared, pools[pool].pinned, pools[pool].used, pools[pool].cfg)
      ensures pools[pool] in Objects()
    {
    }

    /** AllocateCPU */
    method AllocateCPU(id: string, pool: string, req: int) returns (result: CPUSet, ok: bool)
      requires Unaliased()
      modifies this`containers, Objects(), metrics
      ensures TookShare(old(Abs()), id, pool, req, Abs(), ok, result)
    {
      hide *;
      ghost var before := Abs();
      AbsIs();
      if pool == IGNORED || pool == OFFLINE {
        NoShareTaken(before, id, pool, req, true);
        return {}, true;
      }
      if pool !in pools {
        NoShareTaken(before, id, pool, req, false);
        return {}, false;
      }
      var p := pools[pool];
      PoolIs(pool);
      containers := containers[id := Container(id, pool, {}, req)];
      ChangePool(pool, p.shared, p.pinned, p.used + req);
      UpdatePoolMetrics(pool);
      PoolIs(pool);
      AbsIs();
      ShareTaken(before, id, pool, req, Abs());
      return p.shared, true;
    }

    /** Ask the allocator, whose caches are all that changes. */
    method Allocate(from: CPUSet, cnt: int) returns (result: CPUSet, left: CPUSet, ok: bool)
      requires Surroundings()
      modifies lookups
      ensures Surroundings() && Environment() == old(Environment()) && ValidEnv(Environment())
      ensures Views() == old(Views())
      ensures AllocSpec.Outcome(Environment().m.topo, Environment().allocOffline, from, cnt, result, left, ok)
    {
      hide AllocSpec.Outcome, ValidTopology, NoDeadCore;
      result, left, ok := AllocateCpus(lookups, from, cnt);
    }

    /** takeCPUs, from the shared to the pinned CPUs of a pool */
    method TakeCPUs(pool: string, cnt: int) returns (result: CPUSet, ok: bool, ghost left: CPUSet)
      requires Unaliased() && Surroundings() && pool in pools
      modifies pools[pool], lookups
      ensures Surroundings() && Environment() == old(Environment()) && ValidEnv(Environment())
      ensures
        var p := old(Views())[pool];
        && AllocSpec.Outcome(Environment().m.topo, Environment().allocOffline, p.shared, cnt, result, left, ok)
        && Views() == old(Views())[pool := p.(shared := left, pinned := if ok then p.pinned + result else p.pinned)]
    {
      hide AllocSpec.Outcome, ValidTopology, NoDeadCore, Surroundings, ValidEnv;
      var p := pools[pool];
      var rest;
      result, rest, ok := Allocate(p.shared, cnt);
      left := rest;
      ChangePool(pool, rest, if ok then p.pinned + result else p.pinned, p.used);
    }

    /** AllocateCPUs */
    method AllocateCPUs(id: string, pool: string, numCPUs: int) returns (result: CPUSet, ok: bool)
      requires Unaliased() && Surroundings()
      modifies this`containers, Objects(), metrics, lookups
      ensures Surroundings() && ValidEnv(old(Environment()))
      ensures TookCpus(old(Environment()), old(Abs()), id, pool, numCPUs, Abs(), ok, result)
    {
      hide *;
      ghost var before, env := Abs(), Environment();
      EnvironmentIs();
      AbsIs();
      if pool == RESERVED {
        result, ok := AllocateCPU(id, pool, 1000 * numCPUs);
        ReservedTaken(env, before, id, numCPUs, Abs(), ok, result);
        return;
      }
      var poolName := ExclusivePool(pool);
      if poolName == IGNORED || poolName == OFFLINE {
        NoCpusTaken(env, before, id, pool, numCPUs);
        return {}, false;
      }
      if poolName !in pools {
        NoCpusTaken(env, before, id, pool, numCPUs);
        return {}, false;
      }
      ghost var left;
      PoolIs(poolName);
      result, ok, left := TakeCPUs(poolName, numCPUs);
      if !ok {
        AbsIs();
        CpusNotTaken(env, before, id, pool, numCPUs, Abs(), result, left);
        return {}, false;
      }
      containers := containers[id := Container(id, poolName, result, |result| * 1000)];
      UpdatePoolMetrics(poolName);
      AbsIs();
      CpusTaken(env, before, id, pool, numCPUs, Abs(), result, left);
    }

    ghost function Node(): Machine
      reads {}
    {
      Machine(sys.kernel.topo, isolated)
    }

    /** prepareReservedPool */
    method PrepareReservedPool(cfg: NodeConfig) returns (cfg': NodeConfig, ok: bool)
      requires Surroundings() && Ready(cfg)
      ensures ValidMachine(Node())
      ensures WithReserved(Node(), cfg) == if ok then Some(cfg') else None
      ensures !ok ==> cfg' == cfg
      ensures Views() == old(Views()) && Objects() == old(Objects())
      ensures ok ==> "reserved" in cfg && "reserved" in cfg' &&
                     cfg' == cfg["reserved" := cfg["reserved"].(cpus := cfg'["reserved"].cpus)]
      ensures "reserved" in cfg && cfg["reserved"].cpus.Some? && cfg["reserved"].cpus.value != {} ==>
                cfg' == cfg && (ok <==> 0 in cfg["reserved"].cpus.value)
      ensures "reserved" in cfg && cfg["reserved"].cpus in {None, Some({})} ==>
                && (ok <==> cfg["reserved"].cpuCount <= |sys.kernel.topo|)
                && (ok ==> cfg'["reserved"].cpus.Some? &&
                           AreFirst(sys.kernel.topo, cfg'["reserved"].cpus.value, cfg["reserved"].cpuCount))
    {
      EnvironmentNode();
      NodeIsValid();
      ReservedMeans(Node(), cfg);
      if RESERVED !in cfg {
        return cfg, false;
      }
      var rc := cfg[RESERVED];
      if rc.cpus.Some? && rc.cpus.value != {} {
        return cfg, 0 in rc.cpus.value;
      }
      var cset, found := PickReserved(rc.cpuCount);
      if !found {
        return cfg, false;
      }
      rc := rc.(cpus := Some(cset));
      rc := rc.(cpuCount := |cset|);
      return cfg[RESERVED := rc], true;
    }

    /** The search for reserved CPUs: core by core, in the order of the CPU ids. */
    method PickReserved(count: int) returns (cset: CPUSet, ok: bool)
      requires Surroundings() && 0 <= count
      ensures ValidTopology(sys.kernel.topo)
      ensures Reserved(sys.kernel.topo, count, cset, ok)
    {
      hide *;
      ThreadsAre();
      ghost var t := sys.kernel.topo;
      var cpus := SortedSlice(sys.cpus.Keys);
      cset := {};
      var ncpu := count;
      ReservingStart(t, cpus, count);
      var i := 0;
      while i < |cpus|
        invariant 0 <= i <= |cpus| && 0 <= ncpu && Reserving(t, cpus, i, count, cset, ncpu)
      {
        var id := cpus[i];
        assert id in cpus;
        var tset := UnreservedThreads(id, cset);
        ReservingNext(t, cpus, i, count, cset, ncpu, tset);
        if ncpu < |tset| {
          cset := cset + Smallest(tset, ncpu);
          ncpu := 0;
          return cset, true;
        }
        cset := cset + tset;
        ncpu := ncpu - |tset|;
        i := i + 1;
        if ncpu == 0 {
          break;
        }
      }
      ReservingFilled(t, cpus, i, count, cset, ncpu);
      return cset, ncpu <= 0;
    }

    method UnreservedThreads(id: int, cset: CPUSet) returns (tset: CPUSet)
      requires Surroundings() && id in sys.cpus
      ensures Unreserved(sys.kernel.topo, id, cset, tset)
    {
      ThreadsAre();
      tset := sys.ThreadCPUSet(id) - cset;
    }

    lemma ThreadsAre()
      requires Surroundings()
      ensures sys.cpus.Keys == sys.kernel.topo.Keys && ValidTopology(sys.kernel.topo)
      ensures forall c :: c in sys.cpus ==> sys.ThreadCPUSet(c) == sys.kernel.topo[c].threads
    {
    }

    /** htSiblingCPUSet */
    method HtSiblingCPUSet(cset: CPUSet) returns (siblings: CPUSet)
      requires Surroundings() && cset <= sys.kernel.topo.Keys
      ensures siblings == Siblings(sys.kernel.topo, cset)
    {
      hide ValidTopology;
      siblings := {};
      var ids := cset;
      while ids != {}
        invariant ids <= cset
        invariant siblings == Siblings(sys.kernel.topo, cset - ids)
      {
        var id := PickAny(ids);
        ids := ids - {id};
        siblings := siblings + (sys.ThreadCPUSet(id) - {id});
        SiblingsStep(sys.kernel.topo, cset, ids, id);
      }
      assert cset - ids == cset;
    }

    /** What prepareConfig checks for one pool, and what it takes for it. */
    method CheckPool(cfg: NodeConfig, pool: string, scan: Scan) returns (ok: bool, scan': Scan)
      requires Surroundings() && pool in cfg && (!Claims(cfg[pool]) ==> cfg[pool].cpus.Some?)
      requires scan.isolated <= sys.kernel.topo.Keys && scan.available <= sys.kernel.topo.Keys
      ensures ScanStep(Node(), cfg, scan, pool) == if ok then Some(scan') else None
      ensures ok ==> scan'.isolated <= scan.isolated && scan'.available <= scan.available
      ensures Views() == old(Views()) && Objects() == old(Objects())
    {
      hide ValidTopology, Siblings, Surroundings;
      var pcfg := cfg[pool];
      if pcfg.cpuCount == CLAIM_LEFTOVER {
        if Claimant(scan, pcfg.isolated) != "" {
          return false, scan;
        }
        return true, scan.(leftover := scan.leftover[pcfg.isolated := pool]);
      }
      var cpus := pcfg.cpus.value;
      if pcfg.isolated {
        if !(cpus <= scan.isolated) {
          return false, scan;
        }
        scan' := scan.(isolated := scan.isolated - cpus);
      } else {
        if !(cpus <= scan.available) {
          return false, scan;
        }
        scan' := scan.(available := scan.available - cpus);
      }
      if pcfg.disableHT {
        var siblings := HtSiblingCPUSet(cpus);
        if !(siblings <= scan'.available) && !(siblings <= scan'.offlined) {
          return false, scan';
        }
        scan' := scan'.(available := scan'.available - siblings, offlined := scan'.offlined + siblings);
      }
      return true, scan';
    }

    method FirstScan() returns (scan: Scan)
      requires Surroundings()
      ensures scan == ScanStart(Node()) && Views() == old(Views()) && Objects() == old(Objects())
      ensures scan.isolated <= sys.kernel.topo.Keys && scan.available <= sys.kernel.topo.Keys
    {
      scan := Scan(isolated, sys.cpus.Keys - isolated, {}, map[]);
    }

    /** Give a pool its configuration, creating it if need be. */
    method AssignConfig(pool: string, pcfg: Config, cpus: CPUSet)
      requires Unaliased()
      modifies this`pools, Objects()
      ensures Unaliased() && forall o :: o in Objects() ==> o in old(Objects()) || fresh(o)
      ensures Views() == Assigned(old(Views()), pool, pcfg, cpus)
    {
      if pool in pools {
        var p := pools[pool];
        p.cfg := Some(pcfg);
      } else {
        var p := new Pool(cpus, {}, 0, Some(pcfg));
        pools := pools[pool := p];
      }
    }

    /** Create a pool without a configuration if there is none. */
    method EnsurePool(pool: string)
      requires Unaliased()
      modifies this`pools
      ensures Unaliased() && forall o :: o in Objects() ==> o in old(Objects()) || fresh(o)
      ensures Views() == if pool in old(Views()) then old(Views()) else old(Views())[pool := PoolView({}, {}, 0, None)]
    {
      if pool !in pools {
        var p := new Pool({}, {}, 0, None);
        pools := pools[pool := p];
      }
    }

    /** The loop of prepareConfig over all pools, in an arbitrary order. */
    method ScanPools(ghost cfg: NodeConfig, cfg1: NodeConfig)
      returns (ok: bool, scan: Scan, ghost order: seq<string>)
      requires Unaliased() && Surroundings() && Scannable(cfg1)
      requires ValidMachine(Node()) && WithReserved(Node(), cfg) == Some(cfg1) && cfg1.Keys == cfg.Keys
      modifies this`pools, Objects()
      ensures Unaliased() && forall o :: o in Objects() ==> o in old(Objects()) || fresh(o)
      ensures IsOrder(order, cfg.Keys)
      ensures ok ==> Passes(Node(), cfg1, order) && ScanAll(Node(), cfg1, order) == Some(scan)
      ensures ok ==> Preparing(old(Views()), cfg1, cfg1.Keys, Settled(cfg1, scan, {}), Views())
      ensures !ok ==> OnlyConfigs(old(Views()), Views())
      ensures !ok ==> forall busy :: !Accepts(Node(), busy, cfg, order)
    {
      hide *;
      ghost var m, before := Node(), Views();
      scan := FirstScan();
      order := [];
      var remaining := cfg1.Keys;
      ghost var names, settled: set<string> := {}, {};
      PreparingStart(before, cfg1);
      EmptyOrder(m, cfg1);
      while remaining != {}
        invariant names !! remaining && names + remaining == cfg1.Keys
        invariant Unaliased() && forall o :: o in Objects() ==> o in old(Objects()) || fresh(o)
        invariant scan.isolated <= sys.kernel.topo.Keys && scan.available <= sys.kernel.topo.Keys
        invariant IsOrder(order, names) && (forall p :: p in order ==> p in cfg1)
        invariant ScanAll(m, cfg1, order) == Some(scan)
        invariant settled == set p | p in names && !Claims(cfg1[p])
        invariant Preparing(before, cfg1, names, settled, Views())
      {
        var pool :| pool in remaining;
        remaining := remaining - {pool};
        ghost var rest := AnyOrder(remaining);
        OrderOfAll(order, names, pool, rest, remaining, cfg1.Keys);
        ScanSnoc(m, cfg1, order, pool);
        ScannablePool(cfg1, pool);
        ghost var before' := scan;
        ok, scan := CheckPool(cfg1, pool, scan);
        if !ok {
          PreparingOld(before, cfg1, names, settled, Views());
          forall busy ensures !Accepts(m, busy, cfg, order + [pool] + rest) {
            RejectedOnTheWay(m, busy, cfg, order, pool, rest);
          }
          order := order + [pool] + rest;
          return;
        }
        order := order + [pool];
        var pcfg := cfg1[pool];
        if pcfg.cpuCount == CLAIM_LEFTOVER {
          PreparingClaim(before, cfg1, names, settled, Views(), pool);
          EnsurePool(pool);
          SettledClaim(cfg1, names, pool);
        } else {
          PreparingAssign(before, cfg1, names, settled, Views(), pool, pcfg.cpus.value);
          AssignConfig(pool, pcfg, pcfg.cpus.value);
          SettledNamed(cfg1, names, pool);
          settled := settled + {pool};
        }
        names := names + {pool};
      }
      assert names == cfg1.Keys;
      LeftoversStart(cfg1, scan);
      ok := true;
      PassesIs(m, cfg1, order);
    }

    /** The loop of prepareConfig that gives the claimants what is left. */
    method ClaimLeftovers(ghost before: map<string, PoolView>, cfg1: NodeConfig, scan: Scan, ghost order: seq<string>)
      returns (ok: bool, cfg2: NodeConfig, ghost done: set<bool>)
      requires Unaliased() && ValidMachine(Node()) && IsOrder(order, cfg1.Keys)
      requires Passes(Node(), cfg1, order) && ScanAll(Node(), cfg1, order) == Some(scan)
      requires Preparing(before, cfg1, cfg1.Keys, Settled(cfg1, scan, {}), Views())
      modifies this`pools, Objects()
      ensures Unaliased() && forall o :: o in Objects() ==> o in old(Objects()) || fresh(o)
      ensures ok <==> ClaimsMet(scan)
      ensures cfg2 == WithSomeLeftovers(cfg1, scan, done)
      ensures ok ==> cfg2 == WithLeftovers(cfg1, scan)
      ensures ok ==> Preparing(before, cfg2, cfg2.Keys, Settled(cfg1, scan, scan.leftover.Keys), Views())
      ensures OnlyConfigs(before, Views())
    {
      hide *;
      cfg2 := cfg1;
      done := {};
      LeftoversStart(cfg1, scan);
      ClaimsMetNone(scan);
      ghost var settled := Settled(cfg1, scan, {});
      var kinds := scan.leftover.Keys;
      while kinds != {}
        invariant kinds <= scan.leftover.Keys && done == scan.leftover.Keys - kinds
        invariant Unaliased() && forall o :: o in Objects() ==> o in old(Objects()) || fresh(o)
        invariant cfg2 == WithSomeLeftovers(cfg1, scan, done) && cfg2.Keys == cfg1.Keys
        invariant settled == Settled(cfg1, scan, done)
        invariant Preparing(before, cfg2, cfg2.Keys, settled, Views())
        invariant ClaimsMetFor(scan, done)
      {
        var kind: bool := *;
        if kind !in kinds {
          kind := !kind;
          assert Pick(kinds) == kind;
        }
        kinds := kinds - {kind};
        assert scan.leftover.Keys - kinds == done + {kind};
        var pool := scan.leftover[kind];
        ClaimantIs(scan, kind);
        if pool == "" {
          LeftoversSkip(cfg1, scan, done, kind);
          ClaimsMetMore(scan, done, kind);
          done := done + {kind};
          continue;
        }
        ClaimantsClaim(Node(), cfg1, order, kind);
        LeftoversStep(cfg1, scan, done, kind);
        var pcfg := cfg2[pool];
        var cpus := if pcfg.isolated then scan.isolated else scan.available;
        ClaimedIs(scan, kind);
        if cpus == {} {
          ClaimsUnmet(scan, kind);
          PreparingOld(before, cfg2, cfg2.Keys, settled, Views());
          return false, cfg2, done;
        }
        pcfg := pcfg.(cpus := Some(cpus));
        PreparingLeftover(before, cfg2, settled, Views(), pool, pcfg, cpus);
        cfg2 := cfg2[pool := pcfg];
        AssignConfig(pool, pcfg, cpus);
        ClaimsMetMore(scan, done, kind);
        settled := settled + {pool};
        done := done + {kind};
      }
      assert done == scan.leftover.Keys;
      LeftoversEnd(cfg1, scan);
      ClaimsMetAll(scan);
      PreparingOld(before, cfg2, cfg2.Keys, settled, Views());
      ok := true;
    }

    /** The loop of prepareConfig that looks for pools in use which the configuration drops. */
    method DropsBusyPool(cfg: NodeConfig) returns (found: bool)
      ensures found <==> !(Busy(Views()) <= cfg.Keys)
      ensures found <==> exists p :: p in pools && p !in cfg && (pools[p].used != 0 || pools[p].pinned != {})
      ensures Views() == old(Views()) && Objects() == old(Objects())
    {
      var remaining := pools.Keys;
      while remaining != {}
        invariant remaining <= pools.Keys
        invariant forall p :: p in pools && p !in remaining && p in Busy(Views()) ==> p in cfg
        invariant forall p :: p in pools && p !in remaining && p !in cfg ==>
          pools[p].used == 0 && pools[p].pinned == {}
      {
        var pool :| pool in remaining;
        remaining := remaining - {pool};
        if pool in cfg {
          continue;
        }
        var p := pools[pool];
        if p.used != 0 || p.pinned != {} {
          assert pool in Busy(Views());
          return true;
        }
      }
      return false;
    }

    method SetOfflined(cpus: CPUSet)
      modifies this`offlined
      ensures offlined == cpus && Views() == old(Views()) && Objects() == old(Objects())
    {
      offlined := cpus;
    }

    method SetPending(cfg: NodeConfig)
      modifies this`pendingCfg
      ensures pendingCfg == Some(cfg) && Views() == old(Views()) && Objects() == old(Objects())
    {
      pendingCfg := Some(cfg);
    }

    /** updateCpuOnlineState: everything online, then the offlined CPUs offline. */
    method UpdateCpuOnlineState()
      requires Surroundings() && offlined <= sys.kernel.topo.Keys
      modifies sys`cpus, sys`offline, sys.kernel
      ensures Surroundings() && Environment() == old(Environment())
      ensures sys.kernel.online == OnlineAfter(Node(), old(sys.kernel.online), offlined)
      ensures Views() == old(Views()) && Objects() == old(Objects())
    {
      hide ValidTopology, NoDeadCore, Switched, Differing, Marked, OnlineAfter;
      ghost var before := sys.kernel.online;
      var changed := sys.SetCpusOnline(true, Some(sys.cpus.Keys));
      OnlineAfterSwitching(Node(), before, offlined);
      if offlined == {} {
        return;
      }
      changed := sys.SetCpusOnline(false, Some(offlined));
    }

    method RemovePool(pool: string)
      requires Unaliased()
      modifies this`pools
      ensures Unaliased() && Objects() <= old(Objects())
      ensures Views() == old(Views()) - {pool}
    {
      pools := pools - {pool};
    }

    method SetConfig(pool: string, pcfg: Config)
      requires pool in pools && Unaliased()
      modifies pools[pool]
      ensures Views() == old(Views())[pool := old(Views())[pool].(cfg := Some(pcfg))]
    {
      var p := pools[pool];
      p.cfg := Some(pcfg);
    }

    /** restoreConfig */
    method RestoreConfig() returns (ok: bool)
      requires Unaliased()
      modifies this`pools, Objects()
      ensures Unaliased() && Objects() <= old(Objects())
      ensures ok <==> currentCfg.Keys <= old(Views()).Keys
      ensures ok ==> Views() == Restored(old(Views()), currentCfg)
    {
      hide *;
      ghost var before := Views();
      ViewsHaveKeys();
      ConfigsRestoredStart(before, currentCfg);
      var remaining := currentCfg.Keys;
      ghost var done: set<string> := {};
      while remaining != {}
        invariant done !! remaining && done + remaining == currentCfg.Keys && done <= before.Keys
        invariant Unaliased() && Objects() == old(Objects()) && pools == old(pools)
        invariant Views() == ConfigsRestored(before, currentCfg, done) && pools.Keys == before.Keys
      {
        var pool :| pool in remaining;
        remaining := remaining - {pool};
        if pool !in pools {
          return false;
        }
        PoolIs(pool);
        ConfigsRestoredStep(before, currentCfg, done, pool);
        SetConfig(pool, currentCfg[pool]);
        done := done + {pool};
      }
      assert done == currentCfg.Keys;
      ghost var mid, removed: set<string> := Views(), {};
      RestoredEnd(before, currentCfg);
      remaining := pools.Keys;
      while remaining != {}
        invariant removed == (before.Keys - currentCfg.Keys) - remaining && remaining <= before.Keys
        invariant Unaliased() && Objects() <= old(Objects())
        invariant Views() == mid - removed
      {
        var pool :| pool in remaining;
        remaining := remaining - {pool};
        if pool !in currentCfg {
          RemovePool(pool);
          assert mid - removed - {pool} == mid - (removed + {pool});
          removed := removed + {pool};
        }
      }
      assert removed == before.Keys - currentCfg.Keys;
      return true;
    }

    lemma ViewsHaveKeys()
      ensures Views().Keys == pools.Keys
    {
    }

    /** The loop of reconcileConfig that activates the prepared configuration. */
    method Activate()
      requires Unaliased() && ConfigsHaveCpus(Views())
      modifies this`pools, Objects()
      ensures Unaliased() && Objects() <= old(Objects())
      ensures Views() == ActivatedSoFar(old(Views()), old(Views()).Keys)
    {
      hide *;
      ghost var before := Views();
      ViewsHaveKeys();
      ActivatedSoFarStart(before);
      var remaining := pools.Keys;
      ghost var done: set<string> := {};
      while remaining != {}
        invariant done !! remaining && done + remaining == before.Keys
        invariant Unaliased() && Objects() <= old(Objects())
        invariant Views() == ActivatedSoFar(before, done)
      {
        var pool :| pool in remaining;
        remaining := remaining - {pool};
        ActivatedSoFarStep(before, done, pool);
        ViewsHaveKeys();
        PoolIs(pool);
        ConfiguredCpusIs(before, pool);
        var p := pools[pool];
        if p.cfg.None? {
          RemovePool(pool);
        } else {
          var shared := p.cfg.value.cpus.value - p.pinned;
          ChangePool(pool, shared, p.pinned, p.used);
        }
        done := done + {pool};
      }
      assert done == before.Keys;
    }

    /** updateMetrics */
    method UpdateMetrics()
      modifies metrics
      ensures metrics.pools == ExpectedCache(Views())
      ensures Views() == old(Views()) && Objects() == old(Objects())
      ensures metrics.pools.Keys == pools.Keys - {"reserved", ""}
      ensures forall p :: p in metrics.pools ==>
                metrics.pools[p] == PoolData(p, pools[p].shared, pools[p].pinned,
                                             1000 * (|pools[p].shared| + |pools[p].pinned|),
                                             1000 * |pools[p].pinned| + pools[p].used)
    {
      hide *;
      ClearMetrics();
      CacheStart(Views());
      ViewsHaveKeys();
      var remaining := pools.Keys;
      ghost var done, views: map<string, PoolView> := {}, Views();
      while remaining != {}
        invariant done !! remaining && done + remaining == views.Keys
        invariant Views() == views == old(Views()) && Objects() == old(Objects())
        invariant metrics.pools == CacheSoFar(views, done)
      {
        var pool :| pool in remaining;
        remaining := remaining - {pool};
        CacheStep(views, done, pool);
        UpdatePoolMetrics(pool);
        done := done + {pool};
      }
      assert done == views.Keys;
      CacheEnd(views);
      CacheIs();
    }

    lemma CacheIs()
      ensures ExpectedCache(Views()).Keys == pools.Keys - {"reserved", ""}
      ensures forall p :: p in ExpectedCache(Views()) ==>
                ExpectedCache(Views())[p] == PoolData(p, pools[p].shared, pools[p].pinned,
                                                      1000 * (|pools[p].shared| + |pools[p].pinned|),
                                                      1000 * |pools[p].pinned| + pools[p].used)
    {
    }

    method ClearMetrics()
      modifies metrics
      ensures metrics.pools == map[]
      ensures Views() == old(Views()) && Objects() == old(Objects())
    {
      metrics.DeleteAllPools();
    }

    /** The first loop of updateAllocations: give up all exclusive allocations. */
    method ResetPools()
      requires Unaliased()
      modifies Objects()
      ensures Views() == ResetSoFar(old(Views()), old(Views()).Keys)
    {
      hide *;
      ghost var before := Views();
      ViewsHaveKeys();
      ResetStart(before);
      var remaining := pools.Keys;
      ghost var done: set<string> := {};
      while remaining != {}
        invariant done !! remaining && done + remaining == before.Keys && pools.Keys == before.Keys
        invariant Objects() == old(Objects())
        invariant Views() == ResetSoFar(before, done)
      {
        var pool :| pool in remaining;
        remaining := remaining - {pool};
        ResetStep(before, done, pool);
        PoolIs(pool);
        var p := pools[pool];
        ChangePool(pool, p.shared + p.pinned, {}, p.used);
        done := done + {pool};
      }
      assert done == before.Keys;
    }

    /** updateAllocations, in some order of containers, up to the first allocation that fails */
    method UpdateAllocations() returns (ok: bool, ghost order: seq<string>)
      requires Unaliased() && Surroundings()
      modifies this`containers, Objects(), metrics, lookups
      ensures Surroundings() && Environment() == old(Environment()) && Objects() == old(Objects())
      ensures containers.Keys == old(containers).Keys && ValidEnv(old(Environment()))
      ensures ReallocatesIn(old(Environment()), old(Views()), old(containers), order, Views(), containers)
      ensures ok <==> Members(order) == old(containers).Keys
    {
      hide *;
      ghost var env, pools0, cs0 := Environment(), Views(), containers;
      EnvironmentIs();
      ResetPools();
      ghost var reset := Views();
      order := [];
      NoTurns(env, reset, cs0);
      var remaining := containers.Keys;
      while remaining != {}
        invariant remaining <= containers.Keys == cs0.Keys && IsOrder(order, cs0.Keys - remaining)
        invariant Surroundings() && Environment() == env && Objects() == old(Objects())
        invariant Reached(env, reset, cs0, order, Views(), containers)
      {
        var id :| id in remaining;
        var c := containers[id];
        var ncpu := |c.cpus|;
        ghost var before, pools1 := Abs(), Views();
        AbsIs();
        if ncpu != 0 {
          var cpus;
          cpus, ok := AllocateCPUs(id, c.pool, ncpu);
          AbsIs();
          EnvironmentIs();
          TookCpusContainers(env, before, id, c.pool, ncpu, Abs(), ok, cpus);
          if !ok {
            TurnFailed(env, before, id, Abs(), cpus);
            StoppedEarly(env, pools0, cs0, order, remaining, id, Views(), containers);
            return;
          }
          Turn(env, before, id, Abs(), cpus);
        } else {
          NoTurn(env, before, id);
        }
        NextTurn(env, reset, cs0, order, before.pools, before.containers, id, Views(), containers);
        OrderSnoc(order, cs0.Keys - remaining, id);
        assert cs0.Keys - remaining + {id} == cs0.Keys - (remaining - {id});
        order := order + [id];
        remaining := remaining - {id};
      }
      assert cs0.Keys - remaining == cs0.Keys;
      AllHadTurns(env, pools0, cs0, order, Views(), containers);
      ok := true;
    }

    /** prepareConfig on the pending configuration. */
    method PrepareConfig() returns (ok: bool, ghost order: seq<string>)
      requires Unaliased() && Surroundings() && pendingCfg.Some? && Ready(pendingCfg.value)
      modifies this`pools, this`pendingCfg, this`offlined, Objects()
      ensures Unaliased() && forall o :: o in Objects() ==> o in old(Objects()) || fresh(o)
      ensures ValidMachine(Node()) && pendingCfg.Some? && IsOrder(order, old(pendingCfg).value.Keys)
      ensures ok <==> Accepts(Node(), Busy(old(Views())), old(pendingCfg).value, order)
      ensures ok ==> PreparedIn(Node(), old(pendingCfg).value, order, old(Views()), Views(), offlined, pendingCfg.value)
      ensures !ok ==> SameRequest(Node(), old(pendingCfg).value, pendingCfg.value) && OnlyConfigs(old(Views()), Views())
    {
      hide *;
      ghost var cfg, before := pendingCfg.value, Views();
      NodeIsValid();
      var cfg1, setUp := PrepareReservedPool(pendingCfg.value);
      if !setUp {
        order := AnyOrder(cfg.Keys);
        NotSetUp(Node(), Busy(before), cfg, order);
        NotSetUpAsRequested(Node(), cfg);
        OnlyConfigsRefl(before);
        return false, order;
      }
      pendingCfg := Some(cfg1);
      SetUp(Node(), cfg, cfg1);
      var scan;
      ok, scan, order := ScanPools(cfg, cfg1);
      if !ok {
        RetainedAsRequested(Node(), cfg, cfg1, scan, {});
        LeftoversStart(cfg1, scan);
        return;
      }
      SetOfflined(scan.offlined);
      AcceptsIs(Node(), Busy(before), cfg, cfg1, order, scan);
      var cfg2;
      ghost var done;
      ok, cfg2, done := ClaimLeftovers(before, cfg1, scan, order);
      SetPending(cfg2);
      RetainedAsRequested(Node(), cfg, cfg1, scan, done);
      if !ok {
        return;
      }
      PreparedBusy(before, cfg2, Settled(cfg1, scan, scan.leftover.Keys), Views());
      var drops := DropsBusyPool(cfg2);
      if drops {
        return false, order;
      }
      PreparedIs(Node(), cfg1, order, scan, before, Views());
      PreparedInIs(Node(), Busy(before), cfg, cfg1, order, scan, before, Views());
    }

    lemma NodeIsValid()
      requires Surroundings()
      ensures ValidMachine(Node())
    {
    }

    /** No pool carries a configuration without a CPU set. */
    ghost predicate HaveCpus()
      reads this`pools, Objects()
    {
      ConfigsHaveCpus(Views())
    }

    method AdoptPending()
      requires pendingCfg.Some?
      modifies this`currentCfg, this`pendingCfg
      ensures currentCfg == old(pendingCfg).value && pendingCfg == None
      ensures Views() == old(Views()) && Objects() == old(Objects())
    {
      currentCfg := pendingCfg.value;
      pendingCfg := None;
    }

    /** reconcileConfig: try to take the pending configuration in use. */
    method ReconcileConfig() returns (ok: bool, ghost order: seq<string>)
      requires Unaliased() && Surroundings() && HaveCpus()
      requires pendingCfg.Some? ==> Ready(pendingCfg.value)
      modifies this, Objects(), metrics, lookups, sys`cpus, sys`offline, sys.kernel
      ensures Unaliased() && Surroundings() && Environment() == old(Environment())
      ensures forall o :: o in Objects() ==> o in old(Objects()) || fresh(o)
      ensures ValidEnv(old(Environment())) && Reconciled(old(Environment()), old(Abs()), order, Abs(), ok)
    {
      hide *;
      ghost var env, before := Environment(), Abs();
      EnvironmentIs();
      EnvironmentNode();
      AbsIs();
      if pendingCfg.None? {
        NothingPending(env, before);
        return true, [];
      }
      ghost var cfg := pendingCfg.value;
      HaveCpusIs();
      ok, order := PrepareConfig();
      if !ok {
        ghost var partly := Views();
        var restored := RestoreConfig();
        AbsIs();
        RejectedIs(env, before, cfg, partly, restored, Abs());
        NotReconciled(env, before, order, Abs());
        return;
      }
      PreparedHasCpus(Node(), cfg, order, before.pools, Views(), offlined, pendingCfg.value);
      ghost var prepared := Views();
      Activate();
      ViewsHaveKeys();
      ghost var activated, cs := Views(), containers;
      var reallocated;
      ghost var turns;
      reallocated, turns := UpdateAllocations();
      ReallocatesSo(env, activated, cs, turns, Views(), containers);
      ViewsHaveKeys();
      UpdateMetrics();
      UpdateCpuOnlineState();
      AdoptPending();
      AbsIs();
      AcceptedIs(env, before, cfg, order, prepared, Abs());
      DidReconcile(env, before, order, Abs());
    }

    /** Reconfigure */
    method Reconfigure(ncfg: Option<NodeConfig>) returns (ok: bool, ghost order: seq<string>)
      requires Unaliased() && Surroundings() && HaveCpus()
      requires ncfg.Some? ==> Ready(ncfg.value)
      modifies this, Objects(), metrics, lookups, sys`cpus, sys`offline, sys.kernel
      ensures Unaliased() && Surroundings() && Environment() == old(Environment())
      ensures forall o :: o in Objects() ==> o in old(Objects()) || fresh(o)
      ensures ValidEnv(old(Environment()))
      ensures if ncfg.None? then ok && Abs() == old(Abs())
              else Reconciled(old(Environment()), old(Abs()).(pendingCfg := ncfg), order, Abs(), ok)
    {
      hide *;
      EnvironmentIs();
      if ncfg.None? {
        return true, [];
      }
      MakePending(ncfg.value);
      ok, order := ReconcileConfig();
    }

    method MakePending(cfg: NodeConfig)
      requires Unaliased() && Surroundings() && HaveCpus()
      modifies this`pendingCfg
      ensures Unaliased() && Surroundings() && HaveCpus() && Environment() == old(Environment())
      ensures pendingCfg == Some(cfg) && Abs() == old(Abs()).(pendingCfg := Some(cfg)) && Objects() == old(Objects())
    {
      hide *;
      AbsIs();
      HaveCpusIs();
      SetPending(cfg);
      HaveCpusIs();
      AbsIs();
    }

    /** The part of ReleaseCPU before its attempt to reconcile, for a container whose pool exists. */
    method GiveBack(id: string)
      requires Unaliased() && id in containers && containers[id].pool in pools
      modifies this`containers, Objects(), metrics
      ensures Abs() == Released(old(Abs()), id)
    {
      hide *;
      ghost var before := Abs();
      AbsIs();
      var c := containers[id];
      PoolIs(c.pool);
      containers := containers - {id};
      var p := pools[c.pool];
      if c.cpus == {} {
        ChangePool(c.pool, p.shared, p.pinned, p.used - c.req);
      } else {
        ChangePool(c.pool, p.shared + c.cpus, p.pinned - c.cpus, p.used);
      }
      UpdatePoolMetrics(c.pool);
      AbsIs();
      ReleasedIs(before, id, Abs());
    }

    /** ReleaseCPU */
    method ReleaseCPU(id: string) returns (ghost ok: bool, ghost order: seq<string>)
      requires Unaliased() && Surroundings() && HaveCpus()
      requires pendingCfg.Some? ==> Ready(pendingCfg.value)
      modifies this, Objects(), metrics, lookups, sys`cpus, sys`offline, sys.kernel
      ensures Unaliased() && Surroundings() && Environment() == old(Environment())
      ensures forall o :: o in Objects() ==> o in old(Objects()) || fresh(o)
      ensures ValidEnv(old(Environment()))
      ensures ReleasedTo(old(Environment()), old(Abs()), id, order, Abs(), ok)
    {
      hide *;
      ghost var env, before := Environment(), Abs();
      EnvironmentIs();
      AbsIs();
      HaveCpusIs();
      if id !in containers {
        UnknownReleased(env, before, id);
        return true, [];
      }
      var c := containers[id];
      if c.pool !in pools {
        containers := containers - {id};
        AbsIs();
        StrayReleased(env, before, id);
        return true, [];
      }
      GiveBack(id);
      AbsIs();
      HaveCpusIs();
      KnownReleased(env, before, id);
      ok, order := ReconcileConfig();
      KnownReleasedTo(env, before, id, order, Abs(), ok);
    }

    /** GetPoolCPUSet */
    method GetPoolCPUSet(pool: string) returns (cset: CPUSet, ok: bool)
      requires RESERVED in pools && DEFAULT in pools
      ensures ok <==> pool in pools
      ensures cset == PoolCpuSet(Abs(), pool) && Abs() == old(Abs())
      ensures pool in {"reserved", "default"} ==> cset == pools["reserved"].shared + pools["default"].shared
      ensures pool !in {"reserved", "default"} ==> cset == if pool in pools then pools[pool].shared else {}
    {
      if pool !in pools {
        return {}, false;
      }
      if pool == DEFAULT || pool == RESERVED {
        return pools[DEFAULT].shared + pools[RESERVED].shared, true;
      }
      return pools[pool].shared, true;
    }

    /** GetContainerCPUSet */
    method GetContainerCPUSet(id: string) returns (cset: CPUSet, ok: bool)
      requires RESERVED in pools && DEFAULT in pools
      requires id in containers && containers[id].cpus == {} ==> containers[id].pool in pools
      ensures ok <==> id in containers
      ensures cset == if id in containers then ContainerCpuSet(Abs(), containers[id]) else {}
      ensures Abs() == old(Abs())
      ensures id in containers ==>
                var c := containers[id];
                cset == if c.cpus != {} then c.cpus
                        else if c.pool in {"reserved", "default"}
                        then pools["reserved"].shared + pools["default"].shared
                        else pools[c.pool].shared
    {
      if id !in containers {
        return {}, false;
      }
      var c := containers[id];
      if c.cpus != {} {
        return c.cpus, true;
      }
      if c.pool == RESERVED || c.pool == DEFAULT {
        return pools[RESERVED].shared + pools[DEFAULT].shared, true;
      }
      return pools[c.pool].shared, true;
    }

    /** GetPoolAssignments */
    method GetPoolAssignments(exclusive: bool) returns (cpus: map<string, CPUSet>)
      requires !exclusive ==> RESERVED in pools && DEFAULT in pools
      ensures exclusive ==> cpus == map id | id in containers :: containers[id].cpus
      ensures !exclusive ==> cpus == Assignments(Abs())
      ensures Abs() == old(Abs())
      ensures cpus.Keys == containers.Keys
      ensures !exclusive ==> forall id :: id in containers ==>
                var c := containers[id];
                cpus[id] == if c.cpus != {} then c.cpus
                            else if c.pool in {"reserved", "default"}
                            then pools["reserved"].shared + pools["default"].shared
                            else if c.pool in pools then pools[c.pool].shared
                            else {}
    {
      cpus := map[];
      var remaining := containers.Keys;
      while remaining != {}
        invariant remaining <= containers.Keys && cpus.Keys == containers.Keys - remaining
        invariant forall id :: id in cpus ==>
          cpus[id] == if exclusive then containers[id].cpus else ContainerCpuSet(Abs(), containers[id])
        invariant !exclusive ==> forall id :: id in cpus ==>
          var c := containers[id];
          cpus[id] == if c.cpus != {} then c.cpus
                      else if c.pool in {"reserved", "default"} then pools["reserved"].shared + pools["default"].shared
                      else if c.pool in pools then pools[c.pool].shared
                      else {}
      {
        var id :| id in remaining;
        remaining := remaining - {id};
        var c := containers[id];
        if exclusive {
          cpus := cpus[id := c.cpus];
        } else if c.cpus != {} {
          cpus := cpus[id := c.cpus];
        } else {
          var cset, ok := GetPoolCPUSet(c.pool);
          cpus := cpus[id := cset];
        }
      }
    }

    /** GetPoolCapacity, by pool instead of by resource name */
    method GetPoolCapacity() returns (capacity: map<string, int>)
      ensures capacity == Capacities(Abs()) && Abs() == old(Abs())
      ensures capacity.Keys == pools.Keys
      ensures forall p :: p in pools ==> capacity[p] == 1000 * (|pools[p].shared| + |pools[p].pinned|)
    {
      capacity := map[];
      var remaining := pools.Keys;
      while remaining != {}
        invariant remaining <= pools.Keys && capacity.Keys == pools.Keys - remaining
        invariant forall p :: p in capacity ==> capacity[p] == PoolCapacity(pools[p].View())
        invariant forall p :: p in capacity ==> capacity[p] == 1000 * (|pools[p].shared| + |pools[p].pinned|)
      {
        var pool :| pool in remaining;
        remaining := remaining - {pool};
        var p := pools[pool];
        capacity := capacity[pool := 1000 * (|p.shared| + |p.pinned|)];
      }
    }

    lemma EnvironmentNode()
      ensures Environment().m == Node()
    {
    }

    lemma HaveCpusIs()
      ensures HaveCpus() <==> ConfigsHaveCpus(Views())
    {
    }
  }

  ghost predicate ConfigsHaveCpus(pools: map<string, PoolView>) {
    forall p :: p in pools && pools[p].cfg.Some? ==> pools[p].cfg.value.cpus.Some?
  }

  lemma ReleasedIs(s: State, id: string, s': State)
    requires id in s.containers && s.containers[id].pool in s.pools
    requires
      var c, pv := s.containers[id], s.pools[s.containers[id].pool];
      s'.pools == s.pools[c.pool :=
        if c.cpus == {} then PoolView(pv.shared, pv.pinned, pv.used - c.req, pv.cfg)
        else PoolView(pv.shared + c.cpus, pv.pinned - c.cpus, pv.used, pv.cfg)]
    requires s'.containers == s.containers - {id} && s'.cache == Measure(s.cache, s'.pools, s.containers[id].pool)
    requires s' == s.(pools := s'.pools, containers := s'.containers, cache := s'.cache)
    ensures s' == Released(s, id)
  {
  }

  lemma UnknownReleased(e: Env, s: State, id: string)
    requires ValidEnv(e) && id !in s.containers
    ensures ReleasedTo(e, s, id, [], s, true)
  {
  }

  lemma StrayReleased(e: Env, s: State, id: string)
    requires ValidEnv(e) && id in s.containers && s.containers[id].pool !in s.pools
    ensures ReleasedTo(e, s, id, [], s.(containers := s.containers - {id}), true)
  {
  }

  lemma KnownReleased(e: Env, s: State, id: string)
    requires ValidEnv(e) && id in s.containers && s.containers[id].pool in s.pools
    ensures ConfigsHaveCpus(s.pools) ==> ConfigsHaveCpus(Released(s, id).pools)
    ensures Released(s, id).pendingCfg == s.pendingCfg
  {
  }

  lemma KnownReleasedTo(e: Env, s: State, id: string, order: seq<string>, s': State, ok: bool)
    requires ValidEnv(e) && id in s.containers && s.containers[id].pool in s.pools
    requires Reconciled(e, Released(s, id), order, s', ok)
    ensures ReleasedTo(e, s, id, order, s', ok)
  {
  }

  lemma NothingPending(e: Env, s: State)
    requires ValidEnv(e) && s.pendingCfg.None?
    ensures Reconciled(e, s, [], s, true)
  {
  }

  lemma NotReconciled(e: Env, s: State, order: seq<string>, s': State)
    requires ValidEnv(e) && s.pendingCfg.Some? && IsOrder(order, s.pendingCfg.value.Keys)
    requires !Accepts(e.m, Busy(s.pools), s.pendingCfg.value, order) && Rejected(e, s, s.pendingCfg.value, s')
    ensures Reconciled(e, s, order, s', false)
  {
  }

  lemma DidReconcile(e: Env, s: State, order: seq<string>, s': State)
    requires ValidEnv(e) && s.pendingCfg.Some? && IsOrder(order, s.pendingCfg.value.Keys)
    requires Accepts(e.m, Busy(s.pools), s.pendingCfg.value, order) && Accepted(e, s, s.pendingCfg.value, order, s')
    ensures Reconciled(e, s, order, s', true)
  {
  }

  lemma RejectedIs(e: Env, s: State, cfg: NodeConfig, partly: map<string, PoolView>, restored: bool, s': State)
    requires ValidEnv(e) && OnlyConfigs(s.pools, partly)
    requires restored <==> s.currentCfg.Keys <= partly.Keys
    requires restored ==> s'.pools == Restored(partly, s.currentCfg)
    requires s'.containers == s.containers && s'.currentCfg == s.currentCfg && s'.cache == s.cache &&
        s'.online == s.online
    requires s'.pendingCfg.Some? && SameRequest(e.m, cfg, s'.pendingCfg.value)
    ensures Rejected(e, s, cfg, s')
  {
    if ConfigRecorded(s) {
      RestoredOld(s, partly);
    }
  }

  /** Every pool that a prepared configuration leaves with a configuration has its CPU set, and only existing CPUs go
      offline. */
  lemma PreparedHasCpus(m: Machine, cfg: NodeConfig, order: seq<string>, pools0: map<string, PoolView>,
                        pools: map<string, PoolView>, offlined: CPUSet, cfg2: NodeConfig)
    requires ValidMachine(m) && IsOrder(order, cfg.Keys) && Ready(cfg) && exists busy :: Accepts(m, busy, cfg, order)
    requires ConfigsHaveCpus(pools0) && PreparedIn(m, cfg, order, pools0, pools, offlined, cfg2)
    ensures ConfigsHaveCpus(pools)
    ensures offlined <= m.topo.Keys
  {
    var cfg1 := WithReserved(m, cfg).value;
    var scan := ScanAll(m, cfg1, order).value;
    SetUp(m, cfg, cfg1);
    hide Accepts, WithReserved, Ready, ValidMachine, Fits, ScanAll;
    LeftoversHaveCpus(m, cfg1, order, scan);
    PoolsHaveCpus(pools0, cfg2, pools);
  }

  lemma LeftoversHaveCpus(m: Machine, cfg: NodeConfig, order: seq<string>, s: Scan)
    requires ValidMachine(m) && IsOrder(order, cfg.Keys) && Passes(m, cfg, order) && ScanAll(m, cfg, order) == Some(s)
    requires Scannable(cfg)
    ensures
      var cfg2 := WithLeftovers(cfg, s);
      forall p :: p in cfg2 && !(p == "" && Claims(cfg2[p])) ==> cfg2[p].cpus.Some?
    ensures s.offlined <= m.topo.Keys
  {
    ScanMeans(m, cfg, order);
    SettledInTheEnd(m, cfg, order);
    OfflinedExist(m, cfg);
    forall p | p in cfg && !(p == "" && Claims(cfg[p])) ensures p in Settled(cfg, s, s.leftover.Keys) {
    }
  }

  lemma PoolsHaveCpus(pools0: map<string, PoolView>, cfg: NodeConfig, pools: map<string, PoolView>)
    requires ConfigsHaveCpus(pools0) && Prepared(pools0, cfg, pools)
    requires forall p :: p in cfg && !(p == "" && Claims(cfg[p])) ==> cfg[p].cpus.Some?
    ensures ConfigsHaveCpus(pools)
  {
  }

  lemma OfflinedExist(m: Machine, cfg: NodeConfig)
    requires Fits(m, cfg, cfg.Keys)
    ensures ToOffline(m, cfg, cfg.Keys) <= m.topo.Keys
  {
    forall c | c in ToOffline(m, cfg, cfg.Keys) ensures c in m.topo {
      var p :| p in cfg.Keys && p in cfg && c in SibsOf(m, cfg, p);
      assert SibsOf(m, cfg, p) <= Class(m, false);
    }
  }

  lemma AcceptedIs(e: Env, s: State, cfg: NodeConfig, order: seq<string>, prepared: map<string, PoolView>, s': State)
    requires ValidEnv(e) && IsOrder(order, cfg.Keys) && Accepts(e.m, Busy(s.pools), cfg, order)
    requires PreparedIn(e.m, cfg, order, s.pools, prepared, s'.offlined, s'.currentCfg) && s'.pendingCfg == None
    requires s'.online == OnlineAfter(e.m, s.online, s'.offlined) && s'.cache == ExpectedCache(s'.pools)
    requires s'.pools.Keys == ActivatedSoFar(prepared, prepared.Keys).Keys && s'.containers.Keys == s.containers.Keys
    requires
      Reallocates(e, ActivatedSoFar(prepared, prepared.Keys), s.containers, s'.pools, s'.containers)
    ensures Accepted(e, s, cfg, order, s')
  {
    PreparedActivates(s.pools, s'.currentCfg, prepared);
    hide Reallocates, Accepts, WithReserved, ScanAll, ExpectedCache, OnlineAfter, Activated, ActivatedSoFar,
      Prepared, ValidEnv;
  }

  /** The configuration was prepared with the CPU sets found in this order. */
  ghost predicate PreparedIn(m: Machine, cfg: NodeConfig, order: seq<string>, pools0: map<string, PoolView>,
                             pools: map<string, PoolView>, offlined: CPUSet, cfg2: NodeConfig)
    requires ValidMachine(m) && IsOrder(order, cfg.Keys) && exists busy :: Accepts(m, busy, cfg, order)
  {
    var cfg1 := WithReserved(m, cfg).value;
    var scan := ScanAll(m, cfg1, order).value;
    offlined == scan.offlined && cfg2 == WithLeftovers(cfg1, scan) && Prepared(pools0, cfg2, pools)
  }

  lemma PreparedInIs(m: Machine, busy: set<string>, cfg: NodeConfig, cfg1: NodeConfig, order: seq<string>, s: Scan,
                     pools0: map<string, PoolView>, pools: map<string, PoolView>)
    requires ValidMachine(m) && IsOrder(order, cfg.Keys) && Accepts(m, busy, cfg, order)
    requires WithReserved(m, cfg) == Some(cfg1) && cfg1.Keys == cfg.Keys && ScanAll(m, cfg1, order) == Some(s)
    requires Prepared(pools0, WithLeftovers(cfg1, s), pools)
    ensures PreparedIn(m, cfg, order, pools0, pools, s.offlined, WithLeftovers(cfg1, s))
  {
  }

  lemma NotSetUp(m: Machine, busy: set<string>, cfg: NodeConfig, order: seq<string>)
    requires ValidMachine(m) && WithReserved(m, cfg).None? && IsOrder(order, cfg.Keys)
    ensures !Accepts(m, busy, cfg, order)
  {
  }

  lemma SetUp(m: Machine, cfg: NodeConfig, cfg1: NodeConfig)
    requires ValidMachine(m) && Ready(cfg) && WithReserved(m, cfg) == Some(cfg1)
    ensures Scannable(cfg1) && cfg1.Keys == cfg.Keys
  {
  }

  lemma OnlyConfigsRefl(pools: map<string, PoolView>)
    ensures OnlyConfigs(pools, pools)
  {
  }

  ghost predicate ClaimsMetFor(s: Scan, done: set<bool>) {
    forall k :: k in done && Claimant(s, k) != "" ==> Claimed(s, k) != {}
  }

  lemma ClaimsMetMore(s: Scan, done: set<bool>, k: bool)
    requires ClaimsMetFor(s, done) && (Claimant(s, k) == "" || Claimed(s, k) != {})
    ensures ClaimsMetFor(s, done + {k})
  {
  }

  lemma ClaimsMetAll(s: Scan)
    requires ClaimsMetFor(s, s.leftover.Keys)
    ensures ClaimsMet(s)
  {
  }

  lemma ClaimsUnmet(s: Scan, k: bool)
    requires Claimant(s, k) != "" && Claimed(s, k) == {}
    ensures !ClaimsMet(s)
  {
  }

  lemma ClaimantIs(s: Scan, k: bool)
    requires k in s.leftover
    ensures Claimant(s, k) == s.leftover[k]
  {
  }

  lemma ClaimsMetNone(s: Scan)
    ensures ClaimsMetFor(s, {})
  {
  }

  lemma ClaimedIs(s: Scan, k: bool)
    ensures Claimed(s, k) == if k then s.isolated else s.available
  {
  }

  lemma ConfiguredCpusIs(pools: map<string, PoolView>, p: string)
    requires ConfigsHaveCpus(pools) && p in pools
    ensures pools[p].cfg.Some? ==>
              pools[p].cfg.value.cpus.Some? && ConfiguredCpus(pools[p]) == pools[p].cfg.value.cpus.value
  {
  }

  lemma TookCpusContainers(e: Env, s: State, id: string, pool: string, n: int, s': State, ok: bool, result: CPUSet)
    requires ValidEnv(e) && TookCpus(e, s, id, pool, n, s', ok, result)
    ensures s.containers.Keys <= s'.containers.Keys <= s.containers.Keys + {id}
  {
  }

  lemma OnlineAfterSwitching(m: Machine, online: CPUSet, offlined: CPUSet)
    ensures
      var on := Switched(online, true, m.topo.Keys - {0});
      && Switched(on, false, offlined - {0}) == OnlineAfter(m, online, offlined)
      && (offlined == {} ==> on == OnlineAfter(m, online, offlined))
  {
  }

  lemma NoTurns(e: Env, pools: map<string, PoolView>, cs: map<string, Container>)
    requires ValidEnv(e)
    ensures Reached(e, pools, cs, [], pools, cs) && IsOrder([], cs.Keys - cs.Keys)
  {
  }

  lemma Turn(e: Env, s: State, id: string, s': State, result: CPUSet)
    requires ValidEnv(e) && id in s.containers && |s.containers[id].cpus| != 0
    requires TookCpus(e, s, id, s.containers[id].pool, |s.containers[id].cpus|, s', true, result)
    ensures AllocationStep(e, s.pools, s.containers, id, s'.pools, s'.containers)
  {
    hide TookCpus;
    assert AllocatedAgain(e, s, id, s', true, result);
  }

  lemma NoTurn(e: Env, s: State, id: string)
    requires ValidEnv(e) && id in s.containers && |s.containers[id].cpus| == 0
    ensures AllocationStep(e, s.pools, s.containers, id, s.pools, s.containers)
  {
    assert s.containers[id].cpus == {};
  }

  /** A failing allocation changes nothing. */
  lemma TurnFailed(e: Env, s: State, id: string, s': State, result: CPUSet)
    requires ValidEnv(e) && id in s.containers && |s.containers[id].cpus| != 0
    requires TookCpus(e, s, id, s.containers[id].pool, |s.containers[id].cpus|, s', false, result)
    ensures s' == s && AllocationFails(e, s'.pools, s'.containers, id)
  {
    hide AllocSpec.Outcome;
    assert s' == s;
    hide TookCpus;
    assert AllocatedAgain(e, s, id, s', false, result);
  }

  lemma NextTurn(e: Env, pools0: map<string, PoolView>, cs0: map<string, Container>, order: seq<string>,
                 pools: map<string, PoolView>, cs: map<string, Container>, id: string,
                 pools': map<string, PoolView>, cs': map<string, Container>)
    requires ValidEnv(e) && Reached(e, pools0, cs0, order, pools, cs) && AllocationStep(e, pools, cs, id, pools', cs')
    ensures Reached(e, pools0, cs0, order + [id], pools', cs')
  {
    hide AllocationStep;
    assert (order + [id])[..|order + [id]| - 1] == order;
  }

  lemma StoppedEarly(e: Env, pools0: map<string, PoolView>, cs0: map<string, Container>, order: seq<string>,
                     remaining: set<string>, id: string, pools: map<string, PoolView>, cs: map<string, Container>)
    requires ValidEnv(e) && IsOrder(order, cs0.Keys - remaining) && id in remaining && remaining <= cs0.Keys
    requires Reached(e, ResetSoFar(pools0, pools0.Keys), cs0, order, pools, cs) && AllocationFails(e, pools, cs, id)
    ensures ReallocatesIn(e, pools0, cs0, order, pools, cs) && Members(order) != cs0.Keys
  {
    hide Reached, AllocationFails, ResetSoFar;
    assert id in cs0.Keys - Members(order);
  }

  lemma AllHadTurns(e: Env, pools0: map<string, PoolView>, cs0: map<string, Container>, order: seq<string>,
                    pools: map<string, PoolView>, cs: map<string, Container>)
    requires ValidEnv(e) && IsOrder(order, cs0.Keys)
    requires Reached(e, ResetSoFar(pools0, pools0.Keys), cs0, order, pools, cs)
    ensures ReallocatesIn(e, pools0, cs0, order, pools, cs) && Members(order) == cs0.Keys
  {
    hide Reached, ResetSoFar;
  }

  lemma ReallocatesSo(e: Env, pools: map<string, PoolView>, cs: map<string, Container>, order: seq<string>,
                      pools': map<string, PoolView>, cs': map<string, Container>)
    requires ValidEnv(e) && ReallocatesIn(e, pools, cs, order, pools', cs')
    ensures Reallocates(e, pools, cs, pools', cs')
  {
    hide ReallocatesIn;
  }

  lemma SettledClaim(cfg: NodeConfig, names: set<string>, p: string)
    requires names <= cfg.Keys && p in cfg && cfg[p].cpuCount == CLAIM_LEFTOVER
    ensures (set q | q in names + {p} && !Claims(cfg[q])) == set q | q in names && !Claims(cfg[q])
  {
  }

  lemma SettledNamed(cfg: NodeConfig, names: set<string>, p: string)
    requires names <= cfg.Keys && p in cfg && cfg[p].cpuCount != CLAIM_LEFTOVER
    ensures (set q | q in names + {p} && !Claims(cfg[q])) == (set q | q in names && !Claims(cfg[q])) + {p}
  {
  }

  lemma ScannablePool(cfg: NodeConfig, p: string)
    requires Scannable(cfg) && p in cfg
    ensures !Claims(cfg[p]) ==> cfg[p].cpus.Some?
    ensures cfg[p].cpuCount != CLAIM_LEFTOVER ==> cfg[p].cpus.Some?
  {
  }

  lemma EmptyOrder(m: Machine, cfg: NodeConfig)
    ensures IsOrder([], {})
    ensures ScanAll(m, cfg, []) == Some(ScanStart(m))
  {
  }

  lemma OrderOfAll(order: seq<string>, names: set<string>, x: string, rest: seq<string>, remaining: set<string>,
                   keys: set<string>)
    requires IsOrder(order, names) && IsOrder(rest, remaining)
    requires x !in names && x !in remaining && names !! remaining && names + {x} + remaining == keys
    ensures IsOrder(order + [x], names + {x})
    ensures IsOrder(order + [x] + rest, keys)
    ensures forall p :: p in order + [x] + rest ==> p in keys
    ensures forall p :: p in order + [x] ==> p in keys
  {
    OrderSnoc(order, names, x);
    OrderAppend(order + [x], names + {x}, rest, remaining);
    assert forall p :: p in order + [x] + rest ==> p in Members(order + [x] + rest);
    assert forall p :: p in order + [x] ==> p in order + [x] + rest;
  }

  lemma PassesIs(m: Machine, cfg: NodeConfig, order: seq<string>)
    requires IsOrder(order, cfg.Keys)
    requires forall p :: p in order ==> p in cfg
    requires ScanAll(m, cfg, order).Some?
    ensures Passes(m, cfg, order)
  {
  }

  lemma SiblingsStep(t: Topology, cset: CPUSet, ids: CPUSet, id: int)
    requires id in cset && id in t && id !in ids && ids <= cset
    ensures Siblings(t, cset - ids) == Siblings(t, cset - (ids + {id})) + (t[id].threads - {id})
  {
    var after, before := Siblings(t, cset - ids), Siblings(t, cset - (ids + {id}));
    forall d ensures d in after <==> d in before || (d in t[id].threads && d != id) {
    }
  }

  lemma NoShareTaken(s: State, id: string, pool: string, req: int, ok: bool)
    requires if ok then pool == IGNORED || pool == OFFLINE else pool !in s.pools && pool != IGNORED && pool != OFFLINE
    ensures TookShare(s, id, pool, req, s, ok, {})
  {
  }

  lemma ShareTaken(s: State, id: string, pool: string, req: int, s': State)
    requires pool in s.pools && pool != IGNORED && pool != OFFLINE
    requires s'.pools == s.pools[pool := s.pools[pool].(used := s.pools[pool].used + req)]
    requires s'.containers == s.containers[id := Container(id, pool, {}, req)]
    requires s'.cache == Measure(s.cache, s'.pools, pool)
    requires s' == s.(pools := s'.pools, containers := s'.containers, cache := s'.cache)
    ensures TookShare(s, id, pool, req, s', true, s'.pools[pool].shared)
  {
  }

  lemma ReservedTaken(e: Env, s: State, id: string, n: int, s': State, ok: bool, result: CPUSet)
    requires ValidEnv(e) && TookShare(s, id, RESERVED, 1000 * n, s', ok, result)
    ensures TookCpus(e, s, id, RESERVED, n, s', ok, result)
  {
  }

  lemma NoCpusTaken(e: Env, s: State, id: string, pool: string, n: int)
    requires ValidEnv(e) && pool != RESERVED
    requires
      var p := ExclusivePool(pool);
      p == IGNORED || p == OFFLINE || p !in s.pools
    ensures TookCpus(e, s, id, pool, n, s, false, {})
  {
  }

  lemma CpusNotTaken(e: Env, s: State, id: string, pool: string, n: int, s': State, result: CPUSet, left: CPUSet)
    requires ValidEnv(e) && pool != RESERVED && ExclusivePool(pool) in s.pools
    requires ExclusivePool(pool) != IGNORED && ExclusivePool(pool) != OFFLINE
    requires
      var p := ExclusivePool(pool);
      && AllocSpec.Outcome(e.m.topo, e.allocOffline, s.pools[p].shared, n, result, left, false)
      && s'.pools == s.pools[p := s.pools[p].(shared := left)]
      && s' == s.(pools := s'.pools)
    ensures TookCpus(e, s, id, pool, n, s', false, {})
  {
    var p := ExclusivePool(pool);
    assert s.pools[p := s.pools[p]] == s.pools;
  }

  lemma CpusTaken(e: Env, s: State, id: string, pool: string, n: int, s': State, result: CPUSet, left: CPUSet)
    requires ValidEnv(e) && pool != RESERVED && ExclusivePool(pool) in s.pools
    requires ExclusivePool(pool) != IGNORED && ExclusivePool(pool) != OFFLINE
    requires AllocSpec.Outcome(e.m.topo, e.allocOffline, s.pools[ExclusivePool(pool)].shared, n, result, left, true)
    requires
      var p := ExclusivePool(pool);
      && s'.pools == s.pools[p := s.pools[p].(shared := left, pinned := s.pools[p].pinned + result)]
      && s'.containers == s.containers[id := Container(id, p, result, 1000 * |result|)]
      && s'.cache == Measure(s.cache, s'.pools, p)
      && s' == s.(pools := s'.pools, containers := s'.containers, cache := s'.cache)
    ensures TookCpus(e, s, id, pool, n, s', true, result)
  {
  }
}
