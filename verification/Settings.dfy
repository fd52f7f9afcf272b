/** What configurations and configuration files stand for, said in terms of their entries and the node alone. */
module Settings {
  import opened CpuSets
  import opened Topology
  import opened NodeConfigs
  import opened Preparation
  import opened PoolState
  import opened Reconciliation

  // The reserved pool

  /** The given CPUs are the first n: with each of them come all CPUs of every core that has a lower CPU than any of its
      own core, and all lower CPUs of its own core. */
  ghost predicate AreFirst(t: Topology, cpus: CPUSet, n: int) {
    && |cpus| == n && cpus <= t.Keys
    && forall c, d :: c in t && d in cpus && d in t && ComesFirst(t[c].threads, t[d].threads, c, d) ==> c in cpus
  }

  ghost predicate ComesFirst(core: CPUSet, other: CPUSet, c: int, d: int) {
    (exists k :: k in core && forall l :: l in other ==> k < l) || (core == other && c < d)
  }

  lemma ComesBefore(t: Topology, c: int, d: int)
    requires ValidTopology(t) && c in t && d in t && ComesFirst(t[c].threads, t[d].threads, c, d)
    ensures Before(t, c, d)
  {
    if t[c].threads != t[d].threads {
      var k :| k in t[c].threads && forall l :: l in t[d].threads ==> k < l;
      assert CoreKey(t, c) <= k < CoreKey(t, d);
    }
  }

  /** Some CPU outside a set that comes before all others outside. */
  lemma {:induction false} NextCpu(t: Topology, rest: CPUSet) returns (c: int)
    requires ValidTopology(t) && rest <= t.Keys && rest != {}
    ensures c in rest && forall d :: d in rest ==> !Before(t, d, c)
  {
    var x := Pick(rest);
    if rest == {x} {
      c := x;
    } else {
      var y := NextCpu(t, rest - {x});
      c := if Before(t, x, y) then x else y;
      assert forall d :: d in rest ==> d == x || d in rest - {x};
    }
  }

  lemma {:induction false} FirstExist(t: Topology, n: nat) returns (s: CPUSet)
    requires ValidTopology(t) && n <= |t|
    ensures DownClosed(t, s) && |s| == n
  {
    if n == 0 {
      s := {};
    } else {
      var s0 := FirstExist(t, n - 1);
      if t.Keys <= s0 {
        SubsetSize(t.Keys, s0);
      }
      var x := NotSubset(t.Keys, s0);
      assert x in t.Keys - s0;
      var c := NextCpu(t, t.Keys - s0);
      s := s0 + {c};
      forall a, d | a in t && d in s && Before(t, a, d) ensures a in s {
        assert a in s0 || a in t.Keys - s0;
      }
    }
  }

  lemma FirstCpusAre(t: Topology, n: nat)
    requires ValidTopology(t) && n <= |t|
    ensures AreFirst(t, FirstCpus(t, n), n)
  {
    var s := FirstExist(t, n);
    DownClosedIsFirst(t, s);
    hide FirstCpus;
    forall c, d | c in t && d in s && ComesFirst(t[c].threads, t[d].threads, c, d) ensures c in s {
      ComesBefore(t, c, d);
    }
  }

  /** Reserving CPUs: explicitly reserved ones are kept as they are and accepted exactly if CPU 0 is among them; a
      number of them is served exactly if there are as many, with that many first CPUs; nothing else is changed. */
  lemma ReservedMeans(m: Machine, cfg: NodeConfig)
    requires ValidMachine(m)
    ensures "reserved" !in cfg ==> WithReserved(m, cfg).None?
    ensures "reserved" in cfg && cfg["reserved"].cpus.Some? && cfg["reserved"].cpus.value != {} ==>
              WithReserved(m, cfg) == if 0 in cfg["reserved"].cpus.value then Some(cfg) else None
    ensures "reserved" in cfg && cfg["reserved"].cpus in {None, Some({})} && 0 <= cfg["reserved"].cpuCount ==>
              && (WithReserved(m, cfg).Some? <==> cfg["reserved"].cpuCount <= |m.topo|)
              && (WithReserved(m, cfg).Some? ==>
                    var cfg1 := WithReserved(m, cfg).value;
                    && "reserved" in cfg1 && cfg1["reserved"].cpus.Some?
                    && AreFirst(m.topo, cfg1["reserved"].cpus.value, cfg["reserved"].cpuCount)
                    && cfg1 == cfg["reserved" := cfg["reserved"].(cpus := cfg1["reserved"].cpus)])
  {
    if "reserved" in cfg && 0 <= cfg["reserved"].cpuCount <= |m.topo| {
      FirstCpusAre(m.topo, cfg["reserved"].cpuCount);
    }
    hide FirstCpus, ValidTopology, AreFirst;
  }

  // Configurations

  /** The CPUs of the reserved pool: the explicit ones, with CPU 0 among them, or as many first ones as it asks for. */
  ghost predicate AreReserved(m: Machine, cfg: NodeConfig, reserved: CPUSet) {
    && "reserved" in cfg
    && if cfg["reserved"].cpus.Some? && cfg["reserved"].cpus.value != {}
       then reserved == cfg["reserved"].cpus.value && 0 in reserved
       else AreFirst(m.topo, reserved, cfg["reserved"].cpuCount)
  }

  /** The CPUs a pool names; none if it claims leftovers. */
  ghost function Named(cfg: NodeConfig, reserved: CPUSet, p: string): CPUSet
    requires p in cfg
  {
    if cfg[p].cpuCount == -1 then {}
    else if p == "reserved" then reserved
    else if cfg[p].cpus.Some? then cfg[p].cpus.value
    else {}
  }

  /** The CPUs that isolated pools name, or the others. */
  ghost function NamedBy(cfg: NodeConfig, reserved: CPUSet, isolated: bool): CPUSet {
    set p, c | p in cfg && cfg[p].isolated == isolated && c in Named(cfg, reserved, p) :: c
  }

  /** The other threads on the cores of the CPUs that HT-free pools name. */
  ghost function OtherThreads(m: Machine, cfg: NodeConfig, reserved: CPUSet): CPUSet {
    set p, z, c | p in cfg && cfg[p].disableHT && z in Named(cfg, reserved, p) && z in m.topo
                  && c in m.topo[z].threads && c != z :: c
  }

  /** What is left for a claimant. */
  ghost function Unclaimed(m: Machine, cfg: NodeConfig, reserved: CPUSet, isolated: bool): CPUSet {
    if isolated then m.isolated - NamedBy(cfg, reserved, true)
    else m.topo.Keys - m.isolated - NamedBy(cfg, reserved, false) - OtherThreads(m, cfg, reserved)
  }

  /** A configuration can be taken in use on a node whose pools are all idle. */
  ghost predicate Feasible(m: Machine, cfg: NodeConfig, reserved: CPUSet) {
    NamesFit(m, cfg, reserved) && ClaimsFit(m, cfg, reserved)
  }

  /** Each pool names CPUs of its isolation only, no two pools the same, and nobody a CPU that has to go offline; those
      are not isolated. */
  ghost predicate NamesFit(m: Machine, cfg: NodeConfig, reserved: CPUSet) {
    && (forall p, c :: p in cfg && c in Named(cfg, reserved, p) ==>
          c in m.topo && (c in m.isolated <==> cfg[p].isolated))
    && (forall p, q :: p in cfg && q in cfg && p != q ==> Named(cfg, reserved, p) !! Named(cfg, reserved, q))
    && (forall c :: c in OtherThreads(m, cfg, reserved) ==> c in m.topo && c !in m.isolated)
    && (forall p :: p in cfg ==> OtherThreads(m, cfg, reserved) !! Named(cfg, reserved, p))
  }

  /** At most one pool of each isolation claims leftovers, and there are some for it. */
  ghost predicate ClaimsFit(m: Machine, cfg: NodeConfig, reserved: CPUSet) {
    && (forall p, q :: p in cfg && q in cfg && p != q && cfg[p].cpuCount == -1 && cfg[q].cpuCount == -1 ==>
          cfg[p].isolated != cfg[q].isolated)
    && (forall p :: p in cfg && cfg[p].cpuCount == -1 ==> Unclaimed(m, cfg, reserved, cfg[p].isolated) != {})
  }

  lemma AreFirstIsUnique(t: Topology, s: CPUSet, n: int)
    requires ValidTopology(t) && AreFirst(t, s, n)
    ensures s == FirstCpus(t, n) && 0 <= n <= |t|
  {
    forall c, d | c in t && d in s && Before(t, c, d) ensures c in s {
      if CoreKey(t, c) < CoreKey(t, d) {
        assert CoreKey(t, c) in t[c].threads && forall l :: l in t[d].threads ==> CoreKey(t, c) < l;
      } else {
        assert t[c].threads == t[CoreKey(t, c)].threads == t[d].threads;
      }
      assert ComesFirst(t[c].threads, t[d].threads, c, d);
    }
    DownClosedIsFirst(t, s);
    SubsetSize(s, t.Keys);
  }

  /** The reserved pool can be set up exactly if there are CPUs for it. */
  lemma ReservedIff(m: Machine, cfg: NodeConfig, reserved: CPUSet)
    requires ValidMachine(m) && Ready(cfg)
    ensures AreReserved(m, cfg, reserved) <==>
            && WithReserved(m, cfg).Some?
            && WithReserved(m, cfg).value.Keys == cfg.Keys && "reserved" in cfg
            && WithReserved(m, cfg).value["reserved"].cpus == Some(reserved)
    ensures WithReserved(m, cfg).Some? ==> OnlyReservedSet(cfg, WithReserved(m, cfg).value)
  {
    ReservedMeans(m, cfg);
    ReadyReserved(cfg);
    hide *;
    if "reserved" in cfg && cfg["reserved"].cpus.Some? && cfg["reserved"].cpus.value != {} {
      ReservedExplicitly(m, cfg, reserved);
      SameConfig(cfg);
    } else if "reserved" in cfg {
      ReservedByNumber(m, cfg, reserved);
    } else {
      NoneReserved(m, cfg, reserved);
    }
  }

  /** Only the CPUs of the reserved pool were set. */
  ghost predicate OnlyReservedSet(cfg: NodeConfig, cfg1: NodeConfig) {
    && "reserved" in cfg && cfg1.Keys == cfg.Keys && cfg1["reserved"].cpus.Some?
    && forall p :: p in cfg ==> cfg1[p] == if p == "reserved" then cfg[p].(cpus := cfg1[p].cpus) else cfg[p]
  }

  lemma ReadyReserved(cfg: NodeConfig)
    requires Ready(cfg)
    ensures "reserved" in cfg && !(cfg["reserved"].cpus.Some? && cfg["reserved"].cpus.value != {}) ==>
              0 <= cfg["reserved"].cpuCount && cfg["reserved"].cpus in {None, Some({})}
  {
  }

  lemma SameConfig(cfg: NodeConfig)
    requires "reserved" in cfg && cfg["reserved"].cpus.Some?
    ensures OnlyReservedSet(cfg, cfg)
  {
  }

  lemma ReservedExplicitly(m: Machine, cfg: NodeConfig, reserved: CPUSet)
    requires "reserved" in cfg && cfg["reserved"].cpus.Some? && cfg["reserved"].cpus.value != {}
    ensures AreReserved(m, cfg, reserved) <==> cfg["reserved"].cpus == Some(reserved) && 0 in reserved
  {
    hide AreFirst;
  }

  lemma NoneReserved(m: Machine, cfg: NodeConfig, reserved: CPUSet)
    requires "reserved" !in cfg
    ensures !AreReserved(m, cfg, reserved)
  {
    hide AreFirst;
  }

  lemma ReservedByNumber(m: Machine, cfg: NodeConfig, reserved: CPUSet)
    requires ValidMachine(m) && "reserved" in cfg && 0 <= cfg["reserved"].cpuCount
    requires cfg["reserved"].cpus in {None, Some({})}
    ensures AreReserved(m, cfg, reserved) <==>
            && WithReserved(m, cfg).Some?
            && WithReserved(m, cfg).value.Keys == cfg.Keys
            && WithReserved(m, cfg).value["reserved"].cpus == Some(reserved)
    ensures WithReserved(m, cfg).Some? ==> OnlyReservedSet(cfg, WithReserved(m, cfg).value)
  {
    ReservedMeans(m, cfg);
    var n := cfg["reserved"].cpuCount;
    NumberReserved(m, cfg, reserved);
    hide AreFirst, WithReserved, AreReserved;
    if AreFirst(m.topo, reserved, n) {
      AreFirstIsUnique(m.topo, reserved, n);
    }
    if WithReserved(m, cfg).Some? {
      AreFirstIsUnique(m.topo, WithReserved(m, cfg).value["reserved"].cpus.value, n);
    }
    hide FirstCpus, ValidTopology;
  }

  lemma NumberReserved(m: Machine, cfg: NodeConfig, reserved: CPUSet)
    requires "reserved" in cfg && cfg["reserved"].cpus in {None, Some({})}
    ensures AreReserved(m, cfg, reserved) <==> AreFirst(m.topo, reserved, cfg["reserved"].cpuCount)
  {
    hide AreFirst;
  }

  /** The set-up configuration, in the terms used here. */
  lemma SetUpNames(m: Machine, cfg: NodeConfig, reserved: CPUSet)
    requires ValidMachine(m) && Ready(cfg) && AreReserved(m, cfg, reserved)
    ensures WithReserved(m, cfg).Some? && WithReserved(m, cfg).value.Keys == cfg.Keys
    ensures
      var cfg1 := WithReserved(m, cfg).value;
      && (forall p :: p in cfg ==> cfg1[p] == cfg[p].(cpus := cfg1[p].cpus))
      && (forall p :: p in cfg ==> CpusOf(cfg1, p) == Named(cfg, reserved, p))
      && (forall p :: p in cfg && p != "reserved" ==> cfg1[p] == cfg[p])
      && cfg1["reserved"].cpus == Some(reserved)
  {
    ReservedIff(m, cfg, reserved);
    hide WithReserved, AreReserved;
  }

  lemma SetUpClasses(m: Machine, cfg: NodeConfig, cfg1: NodeConfig, reserved: CPUSet)
    requires cfg1.Keys == cfg.Keys
    requires forall p :: p in cfg ==> cfg1[p] == cfg[p].(cpus := cfg1[p].cpus)
    requires forall p :: p in cfg ==> CpusOf(cfg1, p) == Named(cfg, reserved, p)
    ensures forall k :: Taken(cfg1, cfg1.Keys, k) == NamedBy(cfg, reserved, k)
    ensures ToOffline(m, cfg1, cfg1.Keys) == OtherThreads(m, cfg, reserved)
    ensures forall k :: Leftover(m, cfg1, cfg1.Keys, k) == Unclaimed(m, cfg, reserved, k)
  {
    hide CpusOf, Named, SibsOf;
    var a, b := ToOffline(m, cfg1, cfg1.Keys), OtherThreads(m, cfg, reserved);
    forall c ensures c in a <==> c in b {
      if c in a {
        var p :| p in cfg1 && c in SibsOf(m, cfg1, p);
        ThreadsOf(m, cfg1, p, c);
      }
      if c in b {
        var p, z :| p in cfg && cfg[p].disableHT && z in Named(cfg, reserved, p) && z in m.topo
                    && c in m.topo[z].threads && c != z;
        ThreadsOf(m, cfg1, p, c);
      }
    }
  }

  lemma ThreadsOf(m: Machine, cfg: NodeConfig, p: string, c: int)
    requires p in cfg
    ensures c in SibsOf(m, cfg, p) <==>
            cfg[p].disableHT && exists z :: z in CpusOf(cfg, p) && z in m.topo && c in m.topo[z].threads && c != z
  {
    hide CpusOf;
  }

  /** The verdict on a configuration, for pools in whatever use, is what the configuration, the node and that use
      say. */
  lemma VerdictMeans(m: Machine, pools: map<string, PoolView>, cfg: NodeConfig)
    requires ValidMachine(m) && Ready(cfg) && ("" in cfg ==> cfg[""].cpuCount != -1)
    ensures Acceptable(m, Busy(pools), cfg) <==>
            && (exists reserved :: AreReserved(m, cfg, reserved) && Feasible(m, cfg, reserved))
            && forall p :: p in pools && p !in cfg ==> pools[p].used == 0 && pools[p].pinned == {}
  {
    hide AreReserved, Feasible, Acceptable, WithReserved, Busy, Ready, ValidTopology;
    DropsIdle(pools, cfg);
    forall reserved | AreReserved(m, cfg, reserved)
      ensures Acceptable(m, Busy(pools), cfg) <==> Feasible(m, cfg, reserved) && Busy(pools) <= cfg.Keys
    {
      FeasibleIff(m, Busy(pools), cfg, reserved);
    }
    if Acceptable(m, Busy(pools), cfg) {
      AcceptableIsSetUp(m, Busy(pools), cfg);
      ReservedIff(m, cfg, {});
      ReservedIff(m, cfg, WithReserved(m, cfg).value["reserved"].cpus.value);
    }
  }

  lemma DropsIdle(pools: map<string, PoolView>, cfg: NodeConfig)
    ensures Busy(pools) <= cfg.Keys <==>
            forall p :: p in pools && p !in cfg ==> pools[p].used == 0 && pools[p].pinned == {}
  {
    if Busy(pools) <= cfg.Keys {
      forall p | p in pools && p !in cfg ensures pools[p].used == 0 && pools[p].pinned == {} {
        assert p !in Busy(pools);
      }
    }
  }

  lemma FeasibleIff(m: Machine, busy: set<string>, cfg: NodeConfig, reserved: CPUSet)
    requires ValidMachine(m) && Ready(cfg) && AreReserved(m, cfg, reserved) && ("" in cfg ==> cfg[""].cpuCount != -1)
    ensures Acceptable(m, busy, cfg) <==> Feasible(m, cfg, reserved) && busy <= cfg.Keys
  {
    SetUpNames(m, cfg, reserved);
    var cfg1 := WithReserved(m, cfg).value;
    MachineClasses(m);
    hide WithReserved, AreReserved, Ready, ValidTopology, CpusOf, Named, Fits, UniqueClaims, ClaimsCanBeMet, NamesFit,
        ClaimsFit, ValidMachine;
    FitsIff(m, cfg, cfg1, reserved);
    ClaimsIff(m, cfg, cfg1, reserved);
  }

  lemma MachineClasses(m: Machine)
    requires ValidMachine(m)
    ensures m.isolated <= m.topo.Keys
  {
  }

  lemma FitsIff(m: Machine, cfg: NodeConfig, cfg1: NodeConfig, reserved: CPUSet)
    requires cfg1.Keys == cfg.Keys && m.isolated <= m.topo.Keys
    requires forall p :: p in cfg ==> cfg1[p] == cfg[p].(cpus := cfg1[p].cpus)
    requires forall p :: p in cfg ==> CpusOf(cfg1, p) == Named(cfg, reserved, p)
    ensures Fits(m, cfg1, cfg1.Keys) <==> NamesFit(m, cfg, reserved)
  {
    SetUpClasses(m, cfg, cfg1, reserved);
    hide CpusOf, Named, SibsOf, OtherThreads;
    OfflineSets(m, cfg1, Class(m, false));
    forall p | p in cfg
      ensures Named(cfg, reserved, p) <= Class(m, cfg[p].isolated) <==>
              forall c :: c in Named(cfg, reserved, p) ==> c in m.topo && (c in m.isolated <==> cfg[p].isolated)
    {
      InClassIff(m, Named(cfg, reserved, p), cfg[p].isolated);
    }
    forall q | q in cfg
      ensures (forall p :: p in cfg ==> SibsOf(m, cfg1, p) !! CpusOf(cfg1, q)) <==>
              OtherThreads(m, cfg, reserved) !! Named(cfg, reserved, q)
    {
      OfflineApart(m, cfg1, CpusOf(cfg1, q));
    }
    hide ToOffline;
    FitsParts(m, cfg, cfg1, reserved);
  }

  lemma InClassIff(m: Machine, cpus: CPUSet, isolated: bool)
    requires m.isolated <= m.topo.Keys
    ensures cpus <= Class(m, isolated) <==> forall c :: c in cpus ==> c in m.topo && (c in m.isolated <==> isolated)
  {
    if forall c :: c in cpus ==> c in m.topo && (c in m.isolated <==> isolated) {
      forall c | c in cpus ensures c in Class(m, isolated) { }
    }
  }

  lemma OfflineSets(m: Machine, cfg: NodeConfig, within: CPUSet)
    ensures (forall p :: p in cfg ==> SibsOf(m, cfg, p) <= within) <==> ToOffline(m, cfg, cfg.Keys) <= within
  {
    hide SibsOf;
    forall p | p in cfg ensures SibsOf(m, cfg, p) <= ToOffline(m, cfg, cfg.Keys) {
      TakenBy(m, cfg, p);
    }
  }

  lemma OfflineApart(m: Machine, cfg: NodeConfig, cpus: CPUSet)
    ensures (forall p :: p in cfg ==> SibsOf(m, cfg, p) !! cpus) <==> ToOffline(m, cfg, cfg.Keys) !! cpus
  {
    hide SibsOf;
    forall p | p in cfg ensures SibsOf(m, cfg, p) <= ToOffline(m, cfg, cfg.Keys) {
      TakenBy(m, cfg, p);
    }
  }

  lemma FitsParts(m: Machine, cfg: NodeConfig, cfg1: NodeConfig, reserved: CPUSet)
    requires cfg1.Keys == cfg.Keys && m.isolated <= m.topo.Keys
    requires forall p :: p in cfg ==> cfg1[p].isolated == cfg[p].isolated
    requires forall p :: p in cfg ==> CpusOf(cfg1, p) == Named(cfg, reserved, p)
    requires forall p :: p in cfg ==>
               (Named(cfg, reserved, p) <= Class(m, cfg[p].isolated) <==>
                forall c :: c in Named(cfg, reserved, p) ==> c in m.topo && (c in m.isolated <==> cfg[p].isolated))
    requires (forall p :: p in cfg ==> SibsOf(m, cfg1, p) <= Class(m, false)) <==>
             OtherThreads(m, cfg, reserved) <= Class(m, false)
    requires forall q :: q in cfg ==>
               ((forall p :: p in cfg ==> SibsOf(m, cfg1, p) !! CpusOf(cfg1, q)) <==>
                OtherThreads(m, cfg, reserved) !! Named(cfg, reserved, q))
    ensures Fits(m, cfg1, cfg1.Keys) <==> NamesFit(m, cfg, reserved)
  {
    InClassIff(m, OtherThreads(m, cfg, reserved), false);
    hide CpusOf, Named, SibsOf, OtherThreads, Class;
  }

  lemma ClaimsIff(m: Machine, cfg: NodeConfig, cfg1: NodeConfig, reserved: CPUSet)
    requires cfg1.Keys == cfg.Keys && ("" in cfg ==> cfg[""].cpuCount != -1)
    requires forall p :: p in cfg ==> cfg1[p] == cfg[p].(cpus := cfg1[p].cpus)
    requires forall p :: p in cfg ==> CpusOf(cfg1, p) == Named(cfg, reserved, p)
    ensures UniqueClaims(cfg1, cfg1.Keys) && ClaimsCanBeMet(m, cfg1) <==> ClaimsFit(m, cfg, reserved)
  {
    SetUpClasses(m, cfg, cfg1, reserved);
    hide CpusOf, Named, Leftover, Unclaimed;
    forall p | p in cfg ensures cfg1[p].cpuCount == cfg[p].cpuCount && cfg1[p].isolated == cfg[p].isolated { }
  }

  /** What a configuration makes of a pool: a claimant gets what is unclaimed, the reserved pool what is reserved for
      it, any other one what it names, and nothing else is changed. */
  ghost function FinalConfig(m: Machine, cfg: NodeConfig, reserved: CPUSet, p: string): Config
    requires p in cfg
  {
    cfg[p].(cpus := Some(if cfg[p].cpuCount == -1 then Unclaimed(m, cfg, reserved, cfg[p].isolated)
                         else Named(cfg, reserved, p)))
  }

  /** The settings of all pools, and the other threads of HT-free pools go offline. */
  ghost predicate Settles(m: Machine, cfg: NodeConfig, reserved: CPUSet, settled: NodeConfig, offlined: CPUSet) {
    && settled.Keys == cfg.Keys && (forall p :: p in cfg ==> settled[p] == FinalConfig(m, cfg, reserved, p))
    && offlined == OtherThreads(m, cfg, reserved)
  }

  lemma ResolvedSettles(m: Machine, cfg: NodeConfig, reserved: CPUSet)
    requires ValidMachine(m) && Ready(cfg) && AreReserved(m, cfg, reserved) && ("" in cfg ==> cfg[""].cpuCount != -1)
    ensures WithReserved(m, cfg).Some? && Settles(m, cfg, reserved, Resolved(m, cfg), Offlined(m, cfg))
  {
    SetUpNames(m, cfg, reserved);
    var cfg1 := WithReserved(m, cfg).value;
    SetUpClasses(m, cfg, cfg1, reserved);
    hide WithReserved, AreReserved, ValidTopology, ToOffline, Leftover, Unclaimed, OtherThreads;
    forall p | p in cfg ensures Resolved(m, cfg)[p] == FinalConfig(m, cfg, reserved, p) {
      assert cfg1[p] == cfg[p].(cpus := cfg1[p].cpus);
      assert CpusOf(cfg1, p) == Named(cfg, reserved, p);
    }
  }
}
