/** From a configuration file to pools, on a node without any. */
module FirstStart {
  import opened CpuSets
  import opened Topology
  import opened NodeConfigs
  import opened Preparation
  import opened PoolMetrics
  import opened PoolState
  import opened Reconciliation
  import opened Settings
  import opened Runs
  import opened Promises

  /** CPU c is on the core of a CPU of a pool that the file wants HT-free. */
  ghost predicate IsOtherThread(m: Machine, file: map<string, FileEntry>, c: int) {
    exists p, z ::
      && p in file && file[p].disableHT && file[p].cpus.Explicit? && z in file[p].cpus.cpus && z in m.topo
      && c in m.topo[z].threads && c != z
  }

  /** The pools a file gives, on a node without any: each pool with explicit CPUs shares exactly those; the reserved
      pool, if its CPUs are left open, as many first ones as its entry says, or as given if it has none; nobody has
      pinned any. */
  ghost predicate FilePools(m: Machine, file: map<string, FileEntry>, numReserved: int, pools: map<string, PoolView>) {
    && pools.Keys == file.Keys + {"reserved", "default"}
    && (forall p :: p in pools ==> pools[p].pinned == {} && pools[p].used == 0)
    && (forall p :: p in file && file[p].cpus.Explicit? && (p != "reserved" || file[p].cpus.cpus != {}) ==>
          pools[p].shared == file[p].cpus.cpus)
    && ("reserved" !in file ==> AreFirst(m.topo, pools["reserved"].shared, numReserved))
    && ("reserved" in file && file["reserved"].cpus.Empty? ==>
          AreFirst(m.topo, pools["reserved"].shared, file["reserved"].cpuCount))
  }

  /** A pool with the wildcard, and the default pool if the file does not name it, shares exactly the CPUs of its
      isolation that no other pool has and that do not have to go offline. */
  ghost predicate FileLeftovers(m: Machine, file: map<string, FileEntry>, pools: map<string, PoolView>) {
    forall p, c :: p in pools && (if p in file then file[p].cpus.Wildcard? else p == "default") ==>
      (c in pools[p].shared <==>
       && c in m.topo && (c in m.isolated <==> p in file && file[p].isolated)
       && (forall q :: q in pools && q != p ==> c !in pools[q].shared)
       && !IsOtherThread(m, file, c))
  }

  /** No CPU of a pool that the file wants HT-free has an online sibling. */
  ghost predicate FileHtFree(m: Machine, file: map<string, FileEntry>, online: CPUSet) {
    forall c :: IsOtherThread(m, file, c) ==> c !in online
  }

  /** A first start: the pools, and the CPUs that are online, are what the file says. */
  lemma FileToPools(e: Env, file: map<string, FileEntry>, numReserved: nat, online: CPUSet,
                    cache: map<string, PoolData>, order: seq<string>, s': State, ok: bool)
    requires ValidEnv(e) && 0 in online && online <= e.m.topo.Keys
    requires forall p :: p in file ==> GoodEntry(p, file[p], e.m.isolated)
    requires "reserved" in file ==>
               !file["reserved"].cpus.Wildcard? && (file["reserved"].cpus.Empty? ==> 0 <= file["reserved"].cpuCount)
    requires "" in file ==> !file[""].cpus.Wildcard?
    requires Reconciled(e, NoPools(online, cache).(pendingCfg := Some(Parsed(file, numReserved))), order, s', ok)
    ensures
      ok <==>
      exists reserved ::
        AreReserved(e.m, Parsed(file, numReserved), reserved) && Feasible(e.m, Parsed(file, numReserved), reserved)
    ensures ok ==> FilePools(e.m, file, numReserved, s'.pools) && FileLeftovers(e.m, file, s'.pools)
    ensures ok && s'.pools["reserved"].shared != {} ==> FileHtFree(e.m, file, s'.online)
  {
    var cfg := Parsed(file, numReserved);
    var s := NoPools(online, cache).(pendingCfg := Some(cfg));
    FileIsConcrete(file, numReserved);
    hide *;
    FileAccepted(file, e.m.isolated);
    NoPoolsIs(online, cache, cfg);
    ParsedIsGentle(e, file, numReserved, s);
    GentleIsReady(e, s, cfg);
    FirstVerdict(e, s, cfg, order, s', ok);
    if ok {
      var reserved := FirstTakes(e, s, cfg, order, s');
      FileToSettings(e.m, file, numReserved, reserved, s, s');
    }
  }

  lemma FileIsConcrete(file: map<string, FileEntry>, numReserved: nat)
    requires "reserved" in file ==>
               !file["reserved"].cpus.Wildcard? && (file["reserved"].cpus.Empty? ==> 0 <= file["reserved"].cpuCount)
    ensures ReservedIsConcrete(file, numReserved)
  {
  }

  lemma FirstVerdict(e: Env, s: State, cfg: NodeConfig, order: seq<string>, s': State, ok: bool)
    requires ValidEnv(e) && Gentle(e, s, cfg) && s.pools == map[] && s.pendingCfg == Some(cfg)
    requires Reconciled(e, s, order, s', ok)
    ensures IsOrder(order, cfg.Keys) && ValidMachine(e.m)
    ensures ok <==> exists reserved :: AreReserved(e.m, cfg, reserved) && Feasible(e.m, cfg, reserved)
    ensures ok ==> Accepts(e.m, Busy(s.pools), cfg, order) && Accepted(e, s, cfg, order, s')
    ensures ok <==> Acceptable(e.m, Busy(s.pools), cfg)
  {
    hide *;
    GentleIsReady(e, s, cfg);
    VerdictIs(e.m, map[], cfg);
    var accepts := ReconciledAs(e, s, order, s', ok);
    NoneOverlookedAgrees(e.m, Busy(s.pools), cfg);
    PreparationMeans(e.m, Busy(s.pools), cfg, order);
    NoneToDrop(e.m, cfg);
  }

  lemma FirstTakes(e: Env, s: State, cfg: NodeConfig, order: seq<string>, s': State) returns (reserved: CPUSet)
    requires ValidEnv(e) && Sound(s) && Gentle(e, s, cfg) && 0 in s.online && s.online <= e.m.topo.Keys
    requires IsOrder(order, cfg.Keys) && Accepts(e.m, Busy(s.pools), cfg, order) && Accepted(e, s, cfg, order, s')
    requires Acceptable(e.m, Busy(s.pools), cfg)
    ensures AreReserved(e.m, cfg, reserved) && Feasible(e.m, cfg, reserved)
    ensures TakenInUse(e.m, s, cfg, reserved, s')
  {
    hide *;
    GentleIsReady(e, s, cfg);
    AcceptableIsSetUp(e.m, Busy(s.pools), cfg);
    reserved := ReservedThen(e.m, cfg);
    AcceptedTakes(e, s, cfg, order, s', reserved);
    FeasibleIff(e.m, Busy(s.pools), cfg, reserved);
  }

  lemma NoPoolsIs(online: CPUSet, cache: map<string, PoolData>, cfg: NodeConfig)
    ensures
      var s := NoPools(online, cache).(pendingCfg := Some(cfg));
      s.pools == map[] && s.containers == map[] && s.online == online && s.pendingCfg == Some(cfg)
  {
  }

  lemma NoneToDrop(m: Machine, cfg: NodeConfig)
    ensures CanTakeInUse(m, map[], cfg) <==>
            exists reserved :: AreReserved(m, cfg, reserved) && Feasible(m, cfg, reserved)
  {
    hide AreReserved, Feasible;
  }

  /** A file's pools are set up as it says, on a node without any. */
  ghost predicate FromFile(m: Machine, file: map<string, FileEntry>, numReserved: int, reserved: CPUSet,
                           cfg: NodeConfig, pools: map<string, PoolView>)
  {
    && (forall p :: p in file ==> GoodEntry(p, file[p], m.isolated))
    && ("reserved" in file ==>
          !file["reserved"].cpus.Wildcard? && (file["reserved"].cpus.Empty? ==> 0 <= file["reserved"].cpuCount))
    && 0 <= numReserved && cfg == Parsed(file, numReserved)
    && AreReserved(m, cfg, reserved) && Feasible(m, cfg, reserved)
    && pools.Keys == cfg.Keys
    && forall p :: p in pools ==> PoolTaken(PoolView({}, {}, 0, None), FinalConfig(m, cfg, reserved, p), pools[p])
  }

  lemma FileToSettings(m: Machine, file: map<string, FileEntry>, numReserved: nat, reserved: CPUSet, s: State,
                       s': State)
    requires ValidMachine(m) && forall p :: p in file ==> GoodEntry(p, file[p], m.isolated)
    requires "reserved" in file ==>
               !file["reserved"].cpus.Wildcard? && (file["reserved"].cpus.Empty? ==> 0 <= file["reserved"].cpuCount)
    requires AreReserved(m, Parsed(file, numReserved), reserved) && Feasible(m, Parsed(file, numReserved), reserved)
    requires s.pools == map[] && TakenInUse(m, s, Parsed(file, numReserved), reserved, s')
    ensures FilePools(m, file, numReserved, s'.pools) && FileLeftovers(m, file, s'.pools)
    ensures s'.pools["reserved"].shared != {} ==> FileHtFree(m, file, s'.online)
  {
    var cfg := Parsed(file, numReserved);
    FromFileIs(m, file, numReserved, reserved, cfg, s, s');
    hide *;
    FilePoolsAre(m, file, numReserved, reserved, cfg, s'.pools);
    FileLeftoversAre(m, file, numReserved, reserved, cfg, s'.pools);
    if s'.pools["reserved"].shared != {} {
      FileIsHtFree(m, file, numReserved, reserved, cfg, s');
    }
  }

  lemma FromFileIs(m: Machine, file: map<string, FileEntry>, numReserved: nat, reserved: CPUSet, cfg: NodeConfig,
                   s: State, s': State)
    requires forall p :: p in file ==> GoodEntry(p, file[p], m.isolated)
    requires "reserved" in file ==>
               !file["reserved"].cpus.Wildcard? && (file["reserved"].cpus.Empty? ==> 0 <= file["reserved"].cpuCount)
    requires cfg == Parsed(file, numReserved) && AreReserved(m, cfg, reserved) && Feasible(m, cfg, reserved)
    requires s.pools == map[] && TakenInUse(m, s, cfg, reserved, s')
    ensures FromFile(m, file, numReserved, reserved, cfg, s'.pools)
    ensures s'.online == m.topo.Keys - (OtherThreads(m, cfg, reserved) - {0})
  {
    hide AreReserved, Feasible, PoolTaken, FinalConfig, GoodEntry, Parsed, OtherThreads;
  }

  /** What a pool shares. */
  lemma PoolShares(m: Machine, file: map<string, FileEntry>, numReserved: int, reserved: CPUSet, cfg: NodeConfig,
                   pools: map<string, PoolView>, p: string)
    requires FromFile(m, file, numReserved, reserved, cfg, pools) && p in cfg
    ensures p in pools && pools[p].pinned == {} && pools[p].used == 0
    ensures pools[p].shared ==
            if cfg[p].cpuCount == -1 then Unclaimed(m, cfg, reserved, cfg[p].isolated) else Named(cfg, reserved, p)
  {
    hide Parsed, AreReserved, Feasible, GoodEntry, Unclaimed, Named;
    var pv := pools[p];
    assert PoolTaken(PoolView({}, {}, 0, None), FinalConfig(m, cfg, reserved, p), pv);
    hide FromFile;
    var cpus := FinalConfig(m, cfg, reserved, p).cpus.value;
    hide FinalConfig;
    assert cpus + {} == cpus && pv.shared + {} == pv.shared;
  }

  /** How entries of the file are set up. */
  lemma EntryIsSetUp(m: Machine, file: map<string, FileEntry>, numReserved: int, reserved: CPUSet, cfg: NodeConfig,
                     pools: map<string, PoolView>, p: string)
    requires FromFile(m, file, numReserved, reserved, cfg, pools) && p in cfg
    ensures cfg.Keys == file.Keys + {"reserved", "default"}
    ensures cfg[p].cpuCount == -1 <==> if p in file then file[p].cpus.Wildcard? else p == "default"
    ensures cfg[p].isolated <==> p in file && file[p].isolated
    ensures cfg[p].disableHT <==> p in file && file[p].disableHT
    ensures cfg[p].disableHT ==> file[p].cpus.Explicit? && p != "reserved"
    ensures p in file && file[p].cpus.Explicit? && p != "reserved" ==> Named(cfg, reserved, p) == file[p].cpus.cpus
    ensures cfg["reserved"].cpuCount != -1 && Named(cfg, reserved, "reserved") == reserved
  {
    FileMeans(file, numReserved);
    hide Parsed, AreReserved, Feasible, PoolTaken, FinalConfig;
    assert p in file ==> GoodEntry(p, file[p], m.isolated);
    assert "reserved" in file ==> GoodEntry("reserved", file["reserved"], m.isolated);
  }

  lemma FilePoolsAre(m: Machine, file: map<string, FileEntry>, numReserved: int, reserved: CPUSet, cfg: NodeConfig,
                     pools: map<string, PoolView>)
    requires FromFile(m, file, numReserved, reserved, cfg, pools)
    ensures FilePools(m, file, numReserved, pools) && pools["reserved"].shared == reserved
  {
    hide *;
    FromFileReserved(m, file, numReserved, reserved, cfg, pools);
    FromFileKeys(m, file, numReserved, reserved, cfg, pools);
    PoolShares(m, file, numReserved, reserved, cfg, pools, "reserved");
    EntryIsSetUp(m, file, numReserved, reserved, cfg, pools, "reserved");
    forall p | p in pools
      ensures pools[p].pinned == {} && pools[p].used == 0
      ensures p in file && file[p].cpus.Explicit? && p != "reserved" ==> pools[p].shared == file[p].cpus.cpus
    {
      PoolShares(m, file, numReserved, reserved, cfg, pools, p);
      EntryIsSetUp(m, file, numReserved, reserved, cfg, pools, p);
    }
    FilePoolsIs(m, file, numReserved, reserved, pools);
  }

  lemma FilePoolsIs(m: Machine, file: map<string, FileEntry>, numReserved: int, reserved: CPUSet,
                    pools: map<string, PoolView>)
    requires pools.Keys == file.Keys + {"reserved", "default"} && pools["reserved"].shared == reserved
    requires "reserved" !in file ==> AreFirst(m.topo, reserved, numReserved)
    requires "reserved" in file && file["reserved"].cpus.Empty? ==>
               AreFirst(m.topo, reserved, file["reserved"].cpuCount)
    requires "reserved" in file && file["reserved"].cpus.Explicit? && file["reserved"].cpus.cpus != {} ==>
               reserved == file["reserved"].cpus.cpus
    requires forall p :: p in pools ==>
               && pools[p].pinned == {} && pools[p].used == 0
               && (p in file && file[p].cpus.Explicit? && p != "reserved" ==> pools[p].shared == file[p].cpus.cpus)
    ensures FilePools(m, file, numReserved, pools)
  {
    hide AreFirst;
  }

  lemma FromFileKeys(m: Machine, file: map<string, FileEntry>, numReserved: int, reserved: CPUSet, cfg: NodeConfig,
                     pools: map<string, PoolView>)
    requires FromFile(m, file, numReserved, reserved, cfg, pools)
    ensures pools.Keys == cfg.Keys == file.Keys + {"reserved", "default"}
  {
    FileMeans(file, numReserved);
    hide Parsed, AreReserved, Feasible, PoolTaken, FinalConfig, GoodEntry;
  }

  lemma FromFileReserved(m: Machine, file: map<string, FileEntry>, numReserved: int, reserved: CPUSet, cfg: NodeConfig,
                         pools: map<string, PoolView>)
    requires FromFile(m, file, numReserved, reserved, cfg, pools)
    ensures "reserved" !in file ==> AreFirst(m.topo, reserved, numReserved)
    ensures "reserved" in file && file["reserved"].cpus.Empty? ==> AreFirst(m.topo, reserved, file["reserved"].cpuCount)
    ensures "reserved" in file && file["reserved"].cpus.Explicit? && file["reserved"].cpus.cpus != {} ==>
              reserved == file["reserved"].cpus.cpus
  {
    FileMeans(file, numReserved);
    hide Parsed, Feasible, PoolTaken, FinalConfig, GoodEntry, AreFirst;
  }

  lemma OtherThreadIff(m: Machine, file: map<string, FileEntry>, numReserved: int, reserved: CPUSet, cfg: NodeConfig,
                       pools: map<string, PoolView>, c: int)
    requires FromFile(m, file, numReserved, reserved, cfg, pools)
    ensures IsOtherThread(m, file, c) <==> c in OtherThreads(m, cfg, reserved)
  {
    FromFileKeys(m, file, numReserved, reserved, cfg, pools);
    hide FromFile, Named;
    forall p | p in cfg
      ensures cfg[p].disableHT <==> p in file && file[p].disableHT
      ensures cfg[p].disableHT ==> file[p].cpus.Explicit? && Named(cfg, reserved, p) == file[p].cpus.cpus
    {
      EntryIsSetUp(m, file, numReserved, reserved, cfg, pools, p);
    }
    if IsOtherThread(m, file, c) {
      var p, z :|
        && p in file && file[p].disableHT && file[p].cpus.Explicit? && z in file[p].cpus.cpus && z in m.topo
        && c in m.topo[z].threads && c != z;
      assert p in cfg && z in Named(cfg, reserved, p);
    }
  }

  lemma FileLeftoversAre(m: Machine, file: map<string, FileEntry>, numReserved: int, reserved: CPUSet, cfg: NodeConfig,
                         pools: map<string, PoolView>)
    requires m.isolated <= m.topo.Keys && FromFile(m, file, numReserved, reserved, cfg, pools)
    ensures FileLeftovers(m, file, pools)
  {
    FromFileKeys(m, file, numReserved, reserved, cfg, pools);
    FromFileFits(m, file, numReserved, reserved, cfg, pools);
    hide *;
    forall p, c | p in pools && (if p in file then file[p].cpus.Wildcard? else p == "default")
      ensures c in pools[p].shared <==> IsLeftover(m, file, pools, p, c)
    {
      EntryIsSetUp(m, file, numReserved, reserved, cfg, pools, p);
      PoolShares(m, file, numReserved, reserved, cfg, pools, p);
      forall q | q in pools
        ensures pools[q].shared ==
                if cfg[q].cpuCount == -1 then Unclaimed(m, cfg, reserved, cfg[q].isolated) else Named(cfg, reserved, q)
      {
        PoolShares(m, file, numReserved, reserved, cfg, pools, q);
      }
      OtherThreadIff(m, file, numReserved, reserved, cfg, pools, c);
      LeftoverIff(m, file, cfg, reserved, pools, p, c);
    }
    LeftoversAre(m, file, pools);
  }

  ghost predicate IsLeftover(m: Machine, file: map<string, FileEntry>, pools: map<string, PoolView>, p: string,
                             c: int)
  {
    && c in m.topo && (c in m.isolated <==> p in file && file[p].isolated)
    && (forall q :: q in pools && q != p ==> c !in pools[q].shared)
    && !IsOtherThread(m, file, c)
  }

  lemma LeftoversAre(m: Machine, file: map<string, FileEntry>, pools: map<string, PoolView>)
    requires forall p, c :: p in pools && (if p in file then file[p].cpus.Wildcard? else p == "default") ==>
               (c in pools[p].shared <==> IsLeftover(m, file, pools, p, c))
    ensures FileLeftovers(m, file, pools)
  {
  }

  lemma FromFileFits(m: Machine, file: map<string, FileEntry>, numReserved: int, reserved: CPUSet, cfg: NodeConfig,
                     pools: map<string, PoolView>)
    requires FromFile(m, file, numReserved, reserved, cfg, pools)
    ensures NamesFit(m, cfg, reserved) && ClaimsFit(m, cfg, reserved)
  {
    hide Parsed, AreReserved, NamesFit, ClaimsFit, PoolTaken, FinalConfig, GoodEntry;
  }

  lemma LeftoverIff(m: Machine, file: map<string, FileEntry>, cfg: NodeConfig, reserved: CPUSet,
                    pools: map<string, PoolView>, p: string, c: int)
    requires m.isolated <= m.topo.Keys && NamesFit(m, cfg, reserved) && ClaimsFit(m, cfg, reserved)
    requires pools.Keys == cfg.Keys && p in cfg && cfg[p].cpuCount == -1
    requires cfg[p].isolated <==> p in file && file[p].isolated
    requires forall q :: q in pools ==>
               pools[q].shared ==
               if cfg[q].cpuCount == -1 then Unclaimed(m, cfg, reserved, cfg[q].isolated) else Named(cfg, reserved, q)
    requires IsOtherThread(m, file, c) <==> c in OtherThreads(m, cfg, reserved)
    ensures c in pools[p].shared <==> IsLeftover(m, file, pools, p, c)
  {
    hide OtherThreads, IsOtherThread;
    ClaimantsNameNone(cfg, reserved);
    hide Named;
  }

  lemma ClaimantsNameNone(cfg: NodeConfig, reserved: CPUSet)
    ensures forall q :: q in cfg && cfg[q].cpuCount == -1 ==> Named(cfg, reserved, q) == {}
  {
  }

  lemma FileIsHtFree(m: Machine, file: map<string, FileEntry>, numReserved: int, reserved: CPUSet, cfg: NodeConfig,
                     s': State)
    requires ValidMachine(m) && FromFile(m, file, numReserved, reserved, cfg, s'.pools) && reserved != {}
    requires s'.online == m.topo.Keys - (OtherThreads(m, cfg, reserved) - {0})
    ensures FileHtFree(m, file, s'.online)
  {
    FromFileFits(m, file, numReserved, reserved, cfg, s'.pools);
    FromFileKeys(m, file, numReserved, reserved, cfg, s'.pools);
    HasCpu0(m, file, numReserved, reserved, cfg, s'.pools);
    EntryIsSetUp(m, file, numReserved, reserved, cfg, s'.pools, "reserved");
    hide FromFile, IsOtherThread, OtherThreads, Named, ClaimsFit;
    assert 0 !in OtherThreads(m, cfg, reserved);
    forall c | IsOtherThread(m, file, c) ensures c !in s'.online {
      OtherThreadIff(m, file, numReserved, reserved, cfg, s'.pools, c);
    }
  }

  lemma HasCpu0(m: Machine, file: map<string, FileEntry>, numReserved: int, reserved: CPUSet, cfg: NodeConfig,
                pools: map<string, PoolView>)
    requires ValidMachine(m) && FromFile(m, file, numReserved, reserved, cfg, pools) && reserved != {}
    ensures 0 in reserved
  {
    assert AreReserved(m, cfg, reserved);
    hide FromFile;
    if !(cfg["reserved"].cpus.Some? && cfg["reserved"].cpus.value != {}) {
      var n := cfg["reserved"].cpuCount;
      AreFirstIsUnique(m.topo, reserved, n);
      FirstCpusShape(m.topo, n, 0, 0);
    }
  }
}
