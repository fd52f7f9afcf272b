/** A configuration that is taken in use when it changes is not published. Two small nodes on which the same
    configuration is taken in use again: on one of them the container is bound to get a CPU that is still published as a
    default one, until a container comes or goes; on the other it is bound to get the CPU it has. */
module StaleSets {
  import opened CpuSets
  import opened Topology
  import opened NodeConfigs
  import opened Preparation
  import opened PoolState
  import opened Reconciliation
  import opened Choices
  import opened Runs
  import opened Conflicts
  import AllocSpec

  /** Two cores, the second with two threads; the allocator takes CPU 2 to be offline. */
  ghost function TwoCores(): Env {
    Env(Machine(map[0 := CpuInfo(0, {0}), 1 := CpuInfo(0, {1, 2}), 2 := CpuInfo(0, {1, 2})], {}), {2})
  }

  /** Three cores with one thread each, which the allocator takes to be online. */
  ghost function ThreeCores(): Env {
    Env(Machine(map[0 := CpuInfo(0, {0}), 1 := CpuInfo(0, {1}), 2 := CpuInfo(0, {2})], {}), {})
  }

  ghost function TwoPools(): NodeConfig {
    map[RESERVED := Config(1, Some({0}), false, false), DEFAULT := Config(0, Some({1, 2}), false, false)]
  }

  /** A container has CPU c of the default pool exclusively. */
  ghost function PoolsWith(c: int): map<string, PoolView> {
    map[RESERVED := PoolView({0}, {}, 0, Some(TwoPools()[RESERVED])),
        DEFAULT := PoolView({1, 2} - {c}, {c}, 0, Some(TwoPools()[DEFAULT]))]
  }

  ghost function StateWith(c: int): State {
    State(PoolsWith(c), map["x" := Container("x", DEFAULT, {c}, 1000)], {}, TwoPools(), None,
          ExpectedCache(PoolsWith(c)), {0, 1, 2})
  }

  ghost function WithCpu(c: int): World {
    World(StateWith(c), Snapshot(StateWith(c)))
  }

  /** What both nodes have in common. */
  ghost predicate ThreeCpus(e: Env) {
    ValidEnv(e) && e.m.topo.Keys == {0, 1, 2} && e.m.isolated == {}
  }

  lemma NodesAreValid()
    ensures ThreeCpus(TwoCores()) && ThreeCpus(ThreeCores())
  {
    var t, u := TwoCores().m.topo, ThreeCores().m.topo;
    assert 1 in t[1].threads - {2} && 1 in t[2].threads - {2} && 0 in t[0].threads - {2};
    assert 0 in u[0].threads - {} && 1 in u[1].threads - {} && 2 in u[2].threads - {};
  }

  // The world before

  lemma OneContainer(cs: map<string, Container>, c: Container, p: string)
    requires cs == map[c.id := c] && c.cpus != {}
    ensures Exclusive(cs, p) == if c.pool == p then c.cpus else {}
    ensures Sum(Uses(cs, p)) == 0
  {
    if c.pool == p { ExclusiveIn(cs, c.id); }
    assert Uses(cs, p) == map[c.id := 0];
    OneUse(Uses(cs, p), c.id);
  }

  lemma OneUse(w: map<string, int>, id: string)
    requires w == map[id := 0]
    ensures Sum(w) == 0
  {
    SumRemove(w, id);
    assert w - {id} == map[];
  }

  /** The fields of the world before. */
  lemma Before(c: int)
    ensures
      var s := WithCpu(c).s;
      && s.pools == PoolsWith(c) && s.containers == map["x" := Container("x", DEFAULT, {c}, 1000)]
      && s.currentCfg == TwoPools() && s.online == {0, 1, 2} && s.cache == ExpectedCache(PoolsWith(c))
  {
    hide Snapshot, ExpectedCache, PoolsWith, TwoPools;
  }

  lemma PoolsBefore(c: int)
    ensures PoolsWith(c).Keys == {RESERVED, DEFAULT} == TwoPools().Keys && RESERVED != DEFAULT
    ensures PoolsWith(c)[RESERVED].pinned == {} && PoolsWith(c)[DEFAULT].pinned == {c}
    ensures NewCpus(PoolsWith(c), TwoPools(), DEFAULT) == {1, 2} && NewCpus(PoolsWith(c), TwoPools(), RESERVED) == {0}
  {
  }

  lemma ContainersBefore(cs: map<string, Container>, c: int)
    requires cs == map["x" := Container("x", DEFAULT, {c}, 1000)]
    ensures ContainersOk(cs, {RESERVED, DEFAULT})
    ensures Exclusive(cs, RESERVED) == {} && Exclusive(cs, DEFAULT) == {c}
    ensures Sum(Uses(cs, RESERVED)) == 0 && Sum(Uses(cs, DEFAULT)) == 0
  {
    OneContainer(cs, cs["x"], DEFAULT);
    OneContainer(cs, cs["x"], RESERVED);
    hide Exclusive, Sum, Uses;
  }

  lemma FootprintsBefore(c: int)
    requires c in {1, 2}
    ensures
      var reserved, default := PoolsWith(c)[RESERVED], PoolsWith(c)[DEFAULT];
      && Footprint(reserved) == {0} && reserved.shared !! reserved.pinned && reserved.used == 0
      && Footprint(default) == {1, 2} && default.shared !! default.pinned && default.used == 0
  {
    assert {0} + {} == {0} && {1, 2} - {c} + {c} == {1, 2};
  }

  lemma BeforeIsSound(s: State, c: int)
    requires c in {1, 2}
    requires s.pools == PoolsWith(c) && s.containers == map["x" := Container("x", DEFAULT, {c}, 1000)]
    ensures Sound(s)
  {
    hide *;
    PoolsBefore(c);
    FootprintsBefore(c);
    ContainersBefore(s.containers, c);
    SoundTwo(s, RESERVED, DEFAULT);
  }

  /** A state with two pools. */
  lemma SoundTwo(s: State, p: string, q: string)
    requires s.pools.Keys == {p, q} && p != q && ContainersOk(s.containers, {p, q})
    requires s.pools[p].shared !! s.pools[p].pinned && s.pools[q].shared !! s.pools[q].pinned
    requires Footprint(s.pools[p]) !! Footprint(s.pools[q])
    requires s.pools[p].pinned == Exclusive(s.containers, p) && s.pools[q].pinned == Exclusive(s.containers, q)
    requires s.pools[p].used == Sum(Uses(s.containers, p)) && s.pools[q].used == Sum(Uses(s.containers, q))
    ensures Sound(s)
  {
    hide Exclusive, Sum, Uses, ContainersOk, Footprint;
  }

  lemma BeforeIsCurrent(s: State, c: int)
    requires s.pools == PoolsWith(c) && s.currentCfg == TwoPools()
    ensures ConfigCurrent(s) && RESERVED in s.pools && DEFAULT in s.pools
  {
  }

  lemma BeforeIsConsistent(c: int)
    requires c in {1, 2}
    ensures Consistent(WithCpu(c).s)
  {
    Before(c);
    BeforeIsSound(WithCpu(c).s, c);
    BeforeIsCurrent(WithCpu(c).s, c);
    hide Sound, ConfigCurrent, ExpectedCache, WithCpu, PoolsWith, TwoPools;
  }

  lemma NothingToOffline(m: Machine)
    ensures ToOffline(m, TwoPools(), TwoPools().Keys) == {}
  {
  }

  lemma BeforeIsOnline(e: Env, c: int)
    requires ThreeCpus(e) && c in {1, 2}
    ensures HardwareOk(e, WithCpu(c).s)
  {
    NothingToOffline(e.m);
    Before(c);
    hide ToOffline, ExpectedCache, WithCpu, PoolsWith;
    var off := e.m.topo.Keys - WithCpu(c).s.online;
    assert off == {} && e.m.topo.Keys - ({} - {0}) == e.m.topo.Keys;
    NoneDead(e.m.topo);
  }

  lemma NoneDead(t: Topology)
    requires ValidTopology(t)
    ensures NoDeadCore(t, {})
  {
    forall c | c in t ensures t[c].threads - {} != {} {
      assert c in t[c].threads - {};
    }
  }

  lemma BeforeIsOk(e: Env, c: int)
    requires ThreeCpus(e) && c in {1, 2}
    ensures ValidEnv(e) && WorldOk(e, WithCpu(c)) && WithCpu(c).pub == Snapshot(WithCpu(c).s)
  {
    BeforeIsConsistent(c);
    BeforeIsOnline(e, c);
    hide Consistent, Faithful, HardwareOk, ValidEnv, Snapshot;
    FaithfulNow(WithCpu(c).s);
  }

  lemma PublishedBefore(c: int)
    requires c in {1, 2}
    ensures WithCpu(c).pub.defaultCpus == {0} + ({1, 2} - {c})
  {
    hide ExpectedCache, Assignments, Capacities;
  }

  // The same configuration again

  lemma NothingToPrepare(e: Env)
    requires ThreeCpus(e)
    ensures ValidEnv(e) && WithReserved(e.m, TwoPools()) == Some(TwoPools())
    ensures Resolved(e.m, TwoPools()) == TwoPools()
  {
    hide ValidTopology;
  }

  lemma CpusAsIs(e: Env)
    requires ThreeCpus(e)
    ensures
      var cfg := TwoPools();
      && cfg.Keys == {RESERVED, DEFAULT} && RESERVED != DEFAULT
      && CpusOf(cfg, RESERVED) == {0} && CpusOf(cfg, DEFAULT) == {1, 2}
      && SibsOf(e.m, cfg, RESERVED) == {} && SibsOf(e.m, cfg, DEFAULT) == {}
      && !cfg[RESERVED].isolated && !cfg[DEFAULT].isolated && Class(e.m, false) == {0, 1, 2}
  {
    hide ValidTopology, NoDeadCore;
  }

  lemma FitsAsIs(e: Env)
    requires ThreeCpus(e)
    ensures Fits(e.m, TwoPools(), TwoPools().Keys)
  {
    CpusAsIs(e);
    hide TwoPools, ThreeCpus, CpusOf, SibsOf, Class;
  }

  lemma BusyBefore(c: int)
    ensures Busy(WithCpu(c).s.pools) <= TwoPools().Keys
  {
    Before(c);
    hide WithCpu;
  }

  lemma NobodyClaims()
    ensures forall p :: p in TwoPools() ==> !Claims(TwoPools()[p])
  {
  }

  lemma IsAcceptable(e: Env, c: int)
    requires ThreeCpus(e)
    ensures ValidEnv(e) && Acceptable(e.m, Busy(WithCpu(c).s.pools), TwoPools())
  {
    NothingToPrepare(e);
    FitsAsIs(e);
    BusyBefore(c);
    NobodyClaims();
    hide WithCpu, Fits, Busy, ValidTopology, NoDeadCore, WithReserved, Resolved, TwoPools, Claims;
  }

  lemma ServedBefore(c: int)
    requires c in {1, 2}
    ensures ServedFrom(WithCpu(c).s, TwoPools(), DEFAULT) == {1, 2}
  {
    Before(c);
    PoolsBefore(c);
    hide WithCpu, TwoPools, NewCpus, PoolsWith;
    assert {1, 2} + {c} == {1, 2};
  }

  lemma PinnedStays(c: int)
    requires c in {1, 2}
    ensures KeepsApart(WithCpu(c).s.pools, TwoPools())
  {
    Before(c);
    PoolsBefore(c);
    hide WithCpu, TwoPools, NewCpus, PoolsWith;
  }

  lemma EnoughStays(e: Env, c: int)
    requires c in {1, 2} && 1 in AllocSpec.Usable(e.m.topo, e.allocOffline, {1, 2})
    ensures LeavesEnough(e, WithCpu(c).s, TwoPools())
  {
    Before(c);
    PoolsBefore(c);
    var usable := AllocSpec.Usable(e.m.topo, e.allocOffline, {1, 2});
    hide WithCpu, TwoPools, NewCpus, AllocSpec.Usable, PoolsWith, AtMostOne;
    assert {1, 2} + {c} == {1, 2} && |{c}| == 1 && |usable| > 0;
  }

  lemma TwoPoolsAreSensible()
    ensures Sensible(TwoPools()) && DEFAULT in TwoPools()
  {
  }

  lemma IsGentle(e: Env, c: int)
    requires ThreeCpus(e) && c in {1, 2} && 1 in AllocSpec.Usable(e.m.topo, e.allocOffline, {1, 2})
    ensures ValidEnv(e) && Gentle(e, WithCpu(c).s, TwoPools())
  {
    NothingToPrepare(e);
    PinnedStays(c);
    EnoughStays(e, c);
    Before(c);
    PoolsBefore(c);
    TwoPoolsAreSensible();
    hide WithCpu, Resolved, WithReserved, ValidEnv, KeepsApart, LeavesEnough, PoolsWith, TwoPools, Sensible,
        AllocSpec.Usable;
  }

  lemma IsMild(e: Env, c: int)
    requires ThreeCpus(e) && c in {1, 2} && 1 in AllocSpec.Usable(e.m.topo, e.allocOffline, {1, 2})
    ensures ValidEnv(e) && Mild(e, WithCpu(c).s, TwoPools())
  {
    IsGentle(e, c);
    hide WithCpu, ValidEnv, Acceptable, TwoPools, AllocSpec.Usable, KeepsApart, LeavesEnough, WithReserved;
  }

  // CPU 1 is all that the allocator can give

  lemma UsableAre()
    ensures AllocSpec.Usable(TwoCores().m.topo, TwoCores().allocOffline, {1, 2}) == {1}
    ensures AllocSpec.Usable(ThreeCores().m.topo, ThreeCores().allocOffline, {1, 2}) == {1, 2}
  {
  }

  /** On the first node CPU 1 is the only usable one. */
  lemma OnlyUsable()
    ensures ValidEnv(TwoCores()) && Possible(TwoCores().m.topo, TwoCores().allocOffline, {1, 2}, 1) == {1}
  {
    NodesAreValid();
    UsableAre();
    var t, offline := TwoCores().m.topo, TwoCores().allocOffline;
    assert ValidTopology(t) && NoDeadCore(t, offline);
    hide TwoCores, ThreeCores, ThreeCpus, AllocSpec.Usable, ValidTopology, NoDeadCore, WholeParts;
    WholePartsFit(t, offline, {1, 2}, 1);
    assert |{1, 2}| == 2 && |{1}| == 1;
    OfSameSize(WholeParts(t, offline, {1, 2}, 1), {1});
  }

  /** On the second node CPU 1 is the first core that fits. */
  lemma FirstCore()
    ensures ValidEnv(ThreeCores()) && Possible(ThreeCores().m.topo, ThreeCores().allocOffline, {1, 2}, 1) == {1}
  {
    NodesAreValid();
    UsableAre();
    FirstCoreFits();
    hide *;
    ThreeCpusIs(ThreeCores());
    assert |{1, 2}| == 2 && |{1}| == 1 && {} + {1} == {1};
    FilledByParts(ThreeCores().m.topo, ThreeCores().allocOffline, {1, 2}, 1, {}, {1});
  }

  lemma ThreeCpusIs(e: Env)
    requires ThreeCpus(e)
    ensures ValidEnv(e) && ValidTopology(e.m.topo) && NoDeadCore(e.m.topo, e.allocOffline)
  {
  }

  lemma FirstCoreFits()
    ensures NoDeadCore(ThreeCores().m.topo, ThreeCores().allocOffline)
    ensures AllocSpec.TwoPhases(ThreeCores().m.topo, ThreeCores().allocOffline, {1, 2}, 1, {}, {1})
  {
    NodesAreValid();
    PackageDoesNotFit();
    CoreFits();
    hide AllocSpec.FirstFit, AllocSpec.PackageUnits, AllocSpec.CoreUnits, ThreeCores, TwoCores, NoDeadCore,
        ValidTopology;
    assert {1, 2} - {} == {1, 2};
  }

  lemma PackageDoesNotFit()
    ensures AllocSpec.FirstFit(AllocSpec.PackageUnits(ThreeCores().m.topo, {}), {1, 2}, 1, {})
    ensures ThreeCores().allocOffline == {}
  {
    var t := ThreeCores().m.topo;
    var units := AllocSpec.PackageUnits(t, {});
    forall p | p in units ensures !(units[p] <= {1, 2}) {
      assert 0 in PackageOf(t, 0) - {};
    }
  }

  lemma CoreFits()
    ensures NoDeadCore(ThreeCores().m.topo, {})
    ensures AllocSpec.FirstFit(AllocSpec.CoreUnits(ThreeCores().m.topo, {}), {1, 2}, 1, {1})
  {
    NodesAreValid();
    assert ThreeCores().allocOffline == {};
    CoresOfThree();
    hide ThreeCores, AllocSpec.CoreUnits, AllocSpec.FirstFit, TwoCores, ThreeCpus;
    OneOfThree(AllocSpec.CoreUnits(ThreeCores().m.topo, {}));
  }

  lemma CoresOfThree()
    ensures NoDeadCore(ThreeCores().m.topo, {})
    ensures AllocSpec.CoreUnits(ThreeCores().m.topo, {}) == map[0 := {0}, 1 := {1}, 2 := {2}]
  {
    var t := ThreeCores().m.topo;
    forall c | c in t ensures t[c].threads - {} == {c} != {} {
      assert c in t[c].threads - {};
    }
  }

  lemma OneOfThree(units: AllocSpec.Units)
    requires units == map[0 := {0}, 1 := {1}, 2 := {2}]
    ensures AllocSpec.FirstFit(units, {1, 2}, 1, {1})
  {
    assert 1 in units.Keys && AllocSpec.InWholeUnit(units, units.Keys, {1}, 1);
    assert AllocSpec.Below(units, 1, {1}) == {};
    assert AllocSpec.Below(units, 2, {1}) == {1} by {
      assert 1 in units[1];
    }
    assert |{1}| == 1 && |{2}| == 1;
  }

  lemma OnlyContainer(c: int)
    ensures AtMostOne(WithCpu(c).s.containers, DEFAULT)
  {
    Before(c);
    hide WithCpu;
  }

  /** Whatever happens, the container then has CPU 1. */
  lemma GoesTo1(e: Env, c: int, w': World)
    requires ThreeCpus(e) && c in {1, 2} && 1 in AllocSpec.Usable(e.m.topo, e.allocOffline, {1, 2})
    requires Possible(e.m.topo, e.allocOffline, {1, 2}, 1) == {1} && Tried(e, WithCpu(c), TwoPools(), w')
    ensures "x" in w'.s.containers && w'.s.containers["x"].cpus == {1} && w'.s.containers.Keys == {"x"}
    ensures w'.pub == WithCpu(c).pub
  {
    var w, cfg := WithCpu(c), TwoPools();
    hide *;
    BeforeIsOk(e, c);
    IsMild(e, c);
    IsAcceptable(e, c);
    NothingToPrepare(e);
    OnlyContainer(c);
    ServedBefore(c);
    Before(c);
    assert |{c}| == 1;
    TriedKeeps(e, w, cfg, w');
    ContainerKept(w.s.containers, w'.s.containers, c);
    TriedChoice(e, w, cfg, w', "x");
    SoleChoice(e, w.s, cfg, "x");
    OfSameSize(w'.s.containers["x"].cpus, {1});
  }

  lemma ContainerKept(cs: map<string, Container>, cs': map<string, Container>, c: int)
    requires Alike(cs, cs') && cs == map["x" := Container("x", DEFAULT, {c}, 1000)]
    ensures cs'.Keys == {"x"} && |cs'["x"].cpus| == 1
  {
    assert AlikeContainer(cs["x"], cs'["x"]);
  }

  lemma ToldAsDefault(w: World)
    requires "x" in w.s.containers && w.s.containers["x"].cpus == {1} && 1 in w.pub.defaultCpus
    ensures !ApartFromPublished(w)
  {
    assert 1 in w.s.containers["x"].cpus;
  }

  lemma MildIs(e: Env, s: State, cfg: NodeConfig)
    requires ValidEnv(e) && Mild(e, s, cfg)
    ensures MildEvent(e, s, Configure(cfg))
  {
  }

  lemma TriedIs(e: Env, w: World, cfg: NodeConfig)
    requires ValidEnv(e)
    ensures forall w' :: Step(e, w, Configure(cfg), w') <==> Tried(e, w, cfg, w')
    ensures exists w' :: Step(e, w, Configure(cfg), w')
  {
    hide Tried;
    var w' := TriedExists(e, w, cfg);
    assert Step(e, w, Configure(cfg), w');
  }

  /** On the first node the container has CPU 2, the only shared one left when it was asked for. The world is all right
      and up to date, the configuration keeps every pool's CPUs, and yet, whatever happens, the container ends up with a
      CPU that is still published as a default one. */
  lemma StaleDefault()
    ensures ValidEnv(TwoCores()) && WorldOk(TwoCores(), WithCpu(2)) && WithCpu(2).pub == Snapshot(WithCpu(2).s)
    ensures MildEvent(TwoCores(), WithCpu(2).s, Configure(TwoPools()))
    ensures exists w' :: Step(TwoCores(), WithCpu(2), Configure(TwoPools()), w')
    ensures forall w' :: Step(TwoCores(), WithCpu(2), Configure(TwoPools()), w') ==>
              && "x" in w'.s.containers && w'.s.containers["x"].cpus == {1} && 1 in w'.pub.defaultCpus
              && !ApartFromPublished(w')
  {
    var e, w, cfg := TwoCores(), WithCpu(2), TwoPools();
    NodesAreValid();
    UsableAre();
    OnlyUsable();
    BeforeIsOk(e, 2);
    IsMild(e, 2);
    PublishedBefore(2);
    hide *;
    MildIs(e, w.s, cfg);
    TriedIs(e, w, cfg);
    forall w' | Step(e, w, Configure(cfg), w')
      ensures "x" in w'.s.containers && w'.s.containers["x"].cpus == {1} && 1 in w'.pub.defaultCpus
      ensures !ApartFromPublished(w')
    {
      GoesTo1(e, 2, w');
      ToldAsDefault(w');
    }
  }

  lemma NotDisturbed(e: Env)
    requires ThreeCpus(e) && Possible(e.m.topo, e.allocOffline, {1, 2}, 1) == {1}
    ensures Harmless(e, WithCpu(1), TwoPools()) && !Disturbs(e, WithCpu(1), Configure(TwoPools()))
  {
    NothingToPrepare(e);
    OnlyContainer(1);
    ServedBefore(1);
    Before(1);
    NobodyTold();
    assert |{1}| == 1;
    hide WithCpu, PoolsWith, TwoPools, Resolved, WithReserved, Acceptable, Choice, NotTold, Possible, ServedFrom,
        AtMostOne, NewCpus, ValidTopology, NoDeadCore;
    SoleChoice(e, WithCpu(1).s, TwoPools(), "x");
  }

  lemma NobodyTold()
    ensures NotTold({1}, WithCpu(1).pub, "x")
  {
    PublishedBefore(1);
    hide ExpectedCache, Capacities, PoolCpuSet;
    assert WithCpu(1).pub.assignments.Keys == {"x"};
  }

  /** On the second node the container has CPU 1. Whatever happens, it keeps that, and stays apart from what is
      published. */
  lemma StaysWhereItIs()
    ensures ValidEnv(ThreeCores()) && WorldOk(ThreeCores(), WithCpu(1)) && WithCpu(1).pub == Snapshot(WithCpu(1).s)
    ensures !Disturbs(ThreeCores(), WithCpu(1), Configure(TwoPools()))
    ensures exists w' :: Step(ThreeCores(), WithCpu(1), Configure(TwoPools()), w')
    ensures forall w' :: Step(ThreeCores(), WithCpu(1), Configure(TwoPools()), w') ==>
              "x" in w'.s.containers && w'.s.containers["x"].cpus == {1} && ApartFromPublished(w')
  {
    var e, w, cfg := ThreeCores(), WithCpu(1), TwoPools();
    NodesAreValid();
    UsableAre();
    FirstCore();
    BeforeIsOk(e, 1);
    IsMild(e, 1);
    IsAcceptable(e, 1);
    NothingToPrepare(e);
    hide *;
    TriedIs(e, w, cfg);
    NotDisturbed(e);
    forall w' | Step(e, w, Configure(cfg), w')
      ensures "x" in w'.s.containers && w'.s.containers["x"].cpus == {1} && ApartFromPublished(w')
    {
      GoesTo1(e, 1, w');
      HarmlessTried(e, w, cfg, w');
    }
  }
}
