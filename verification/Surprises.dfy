/** Small worlds in which the code does what one might not expect. */
module Surprises {
  import opened CpuSets
  import opened Topology
  import opened NodeConfigs
  import opened Preparation
  import opened PoolMetrics
  import opened PoolState
  import opened Reconciliation
  import opened Outcomes
  import opened Choices
  import opened Runs
  import opened Conflicts
  import opened Policy
  import Promises
  import Settings
  import StaleSets
  import AllocSpec

  // A pool without a name

  /** Two cores with one thread each. */
  ghost function TwoCores(): Machine {
    Machine(map[0 := CpuInfo(0, {0}), 1 := CpuInfo(0, {1})], {})
  }

  /** A file with a wildcard for a pool without a name, and nothing else. */
  ghost function NamelessFile(): map<string, FileEntry> {
    map["" := WILDCARD_ENTRY]
  }

  lemma NamelessIsParsed()
    ensures forall p :: p in NamelessFile() ==> AcceptableEntry(p, NamelessFile()[p], TwoCores().isolated)
    ensures Parsed(NamelessFile(), 1) ==
            map[RESERVED := Config(1, None, false, false), DEFAULT := Config(CLAIM_LEFTOVER, None, false, false),
                "" := Config(CLAIM_LEFTOVER, None, false, false)]
  {
  }

  lemma FirstOfTwo()
    ensures ValidMachine(TwoCores()) && FirstCpus(TwoCores().topo, 1) == {0}
  {
    var t := TwoCores().topo;
    FirstCpusShape(t, 1, 0, 0);
    assert 0 in Earlier(t, 1);
    SubsetSize({0}, Earlier(t, 1));
  }

  /** The parser accepts the file, and whether the policy does depends on the order in which it visits the pools. */
  lemma NamelessPool()
    ensures forall p :: p in NamelessFile() ==> AcceptableEntry(p, NamelessFile()[p], TwoCores().isolated)
    ensures ValidMachine(TwoCores())
    ensures
      var cfg := Parsed(NamelessFile(), 1);
      exists a, b ::
        && IsOrder(a, cfg.Keys) && IsOrder(b, cfg.Keys)
        && Accepts(TwoCores(), {}, cfg, a) && !Accepts(TwoCores(), {}, cfg, b)
  {
    NamelessIsParsed();
    FirstOfTwo();
    NamelessMatters();
    VerdictDependsOnOrder(TwoCores(), {}, Parsed(NamelessFile(), 1));
  }

  lemma NamelessMatters()
    ensures ValidMachine(TwoCores()) && OrderMatters(TwoCores(), {}, Parsed(NamelessFile(), 1))
  {
    NamelessIsParsed();
    FirstOfTwo();
    hide FirstCpus, Parsed, ValidTopology;
    var m, cfg := TwoCores(), Parsed(NamelessFile(), 1);
    var cfg1 := WithReserved(m, cfg).value;
    assert cfg1 == cfg[RESERVED := Config(1, Some({0}), false, false)];
    NamelessFits(m, cfg1);
  }

  lemma NamelessFits(m: Machine, cfg: NodeConfig)
    requires m == TwoCores()
    requires cfg == map[RESERVED := Config(1, Some({0}), false, false),
                        DEFAULT := Config(CLAIM_LEFTOVER, None, false, false),
                        "" := Config(CLAIM_LEFTOVER, None, false, false)]
    ensures Fits(m, cfg, cfg.Keys) && ClaimsCanBeMet(m, cfg)
    ensures UniqueNamedClaims(cfg, cfg.Keys) && !UniqueClaims(cfg, cfg.Keys)
  {
    assert 1 in Leftover(m, cfg, cfg.Keys, false);
    assert DEFAULT in cfg && "" in cfg && Claims(cfg[DEFAULT]) && Claims(cfg[""]);
  }

  // A dropped pool

  /** Three cores with one thread each, which the allocator takes to be online. */
  ghost function ThreeCores(): Env {
    Env(Machine(map[0 := CpuInfo(0, {0}), 1 := CpuInfo(0, {1}), 2 := CpuInfo(0, {2})], {}), {})
  }

  function Plain(cpus: CPUSet): Config {
    Config(0, Some(cpus), false, false)
  }

  function WithBatch(): NodeConfig {
    map[RESERVED := Plain({0}), DEFAULT := Plain({1}), "batch" := Plain({2})]
  }

  /** The batch pool's CPU is now a default one. */
  function WithoutBatch(): NodeConfig {
    map[RESERVED := Plain({0}), DEFAULT := Plain({1, 2})]
  }

  ghost function Idle(cfg: NodeConfig): map<string, PoolView> {
    map p | p in cfg :: PoolView(if cfg[p].cpus.Some? then cfg[p].cpus.value else {}, {}, 0, Some(cfg[p]))
  }

  /** The batch pool exists and is idle; the configuration that drops it is pending. */
  ghost function BeforeDrop(): State {
    State(Idle(WithBatch()), map[], {}, WithBatch(), Some(WithoutBatch()), ExpectedCache(Idle(WithBatch())), {0, 1, 2})
  }

  /** The batch pool is still there, as if the configuration had not dropped it. */
  ghost function AfterDrop(): map<string, PoolView> {
    map[RESERVED := PoolView({0}, {}, 0, Some(Plain({0}))), DEFAULT := PoolView({1, 2}, {}, 0, Some(Plain({1, 2}))),
        "batch" := PoolView({2}, {}, 0, Some(Plain({2})))]
  }

  /** A full configuration whose pools are all idle makes a consistent state. */
  lemma IdleIsConsistent(s: State, cfg: NodeConfig)
    requires FullConfig(cfg) && RESERVED in cfg && DEFAULT in cfg
    requires s.pools == Idle(cfg) && s.containers == map[] && s.currentCfg == cfg && s.cache == ExpectedCache(s.pools)
    ensures Consistent(s)
  {
    hide ExpectedCache, Sum;
    forall p | p in s.pools ensures s.pools[p].used == Sum(Uses(s.containers, p)) && Exclusive(s.containers, p) == {} {
      NoUses(s.containers, p);
    }
    forall p | p in s.pools ensures Footprint(s.pools[p]) == cfg[p].cpus.value {
      assert cfg[p].cpus.value + {} == cfg[p].cpus.value;
    }
  }

  lemma ThreeCoresAreValid()
    ensures ValidEnv(ThreeCores())
  {
    var t := ThreeCores().m.topo;
    assert 0 in t[0].threads - {} && 1 in t[1].threads - {} && 2 in t[2].threads - {};
  }

  lemma DropIsSetUp()
    ensures ValidMachine(ThreeCores().m) && WithReserved(ThreeCores().m, WithoutBatch()) == Some(WithoutBatch())
    ensures Resolved(ThreeCores().m, WithoutBatch()) == WithoutBatch()
  {
    ThreeCoresAreValid();
    hide ValidTopology;
  }

  lemma DropFits()
    ensures Fits(ThreeCores().m, WithoutBatch(), WithoutBatch().Keys)
  {
  }

  lemma DropIsFull()
    ensures NoneOverlooked(WithoutBatch()) && FullConfig(WithoutBatch())
    ensures forall p :: p in WithoutBatch() ==> !Claims(WithoutBatch()[p])
  {
  }

  lemma DropIsAcceptable()
    ensures ValidEnv(ThreeCores()) && Acceptable(ThreeCores().m, {}, WithoutBatch())
    ensures Resolved(ThreeCores().m, WithoutBatch()) == WithoutBatch()
    ensures NoneOverlooked(WithoutBatch()) && FullConfig(WithoutBatch())
  {
    ThreeCoresAreValid();
    DropIsSetUp();
    DropFits();
    DropIsFull();
    hide *;
    AcceptableWithoutClaims(ThreeCores().m, WithoutBatch(), WithoutBatch());
  }

  /** Without exclusive containers reallocation only brings all CPUs back to the shared ones. */
  lemma NothingToReallocate(e: Env, pools: map<string, PoolView>, pools': map<string, PoolView>,
                            cs': map<string, Container>)
    requires ValidEnv(e) && Reallocates(e, pools, map[], pools', cs')
    ensures pools' == ResetSoFar(pools, pools.Keys) && cs' == map[]
  {
    var none: map<string, Container> := map[];
    var order :| ReallocatesIn(e, pools, none, order, pools', cs');
    NoMembers(order);
  }

  lemma NoMembers(order: seq<string>)
    requires Members(order) <= {}
    ensures order == []
  {
    hide Members;
    if order != [] {
      FirstMember(order);
    }
  }

  lemma FirstMember(order: seq<string>)
    requires order != []
    ensures order[0] in Members(order)
  {
  }

  /** Nothing is busy in an idle pool set. */
  lemma IdleIsNotBusy(cfg: NodeConfig)
    ensures Busy(Idle(cfg)) == {}
  {
  }

  lemma DropOutcome(order: seq<string>, s': State, ok: bool)
    requires ValidEnv(ThreeCores()) && Reconciled(ThreeCores(), BeforeDrop(), order, s', ok)
    ensures ok && s'.currentCfg == WithoutBatch() && s'.containers == map[]
    ensures s'.pools == AfterDrop() && !Apart(s'.pools)
  {
    var e, s, cfg := ThreeCores(), BeforeDrop(), WithoutBatch();
    DropIsAcceptable();
    IdleIsNotBusy(WithBatch());
    var accepts := ReconciledAs(e, s, order, s', ok);
    DroppedActivation();
    hide *;
    NoneOverlookedAgrees(e.m, Busy(s.pools), cfg);
    PreparationMeans(e.m, Busy(s.pools), cfg, order);
    AcceptedMeans(e, s, cfg, order, s');
    ActivationReallocates(e, s, s');
    NothingToReallocate(e, Activated(s.pools, cfg), s'.pools, s'.containers);
    Overlap(s'.pools);
  }

  lemma PendingHappens(e: Env, s: State, cfg: NodeConfig) returns (order: seq<string>, s': State, ok: bool)
    requires ValidEnv(e) && s.pendingCfg == Some(cfg)
    ensures Reconciled(e, s, order, s', ok)
  {
    hide Reconciled, ValidEnv;
    order := AnyOrder(cfg.Keys);
    s', ok := ReconciledExists(e, s, order);
  }

  /** The pools that the configuration leaves behind, whatever happens: the batch pool is still there, and shares its
      CPU with the default pool. */
  lemma DroppedPoolOverlaps()
    ensures ValidEnv(ThreeCores()) && Consistent(BeforeDrop())
    ensures exists order, s', ok :: Reconciled(ThreeCores(), BeforeDrop(), order, s', ok)
    ensures forall order, s', ok :: Reconciled(ThreeCores(), BeforeDrop(), order, s', ok) ==>
              ok && s'.currentCfg == WithoutBatch() && s'.pools == AfterDrop() && !Apart(s'.pools)
  {
    ThreeCoresAreValid();
    BeforeDropIsConsistent();
    DroppedActivation();
    hide *;
    var order, s', ok := PendingHappens(ThreeCores(), BeforeDrop(), WithoutBatch());
    forall order, s', ok | Reconciled(ThreeCores(), BeforeDrop(), order, s', ok)
      ensures ok && s'.currentCfg == WithoutBatch() && s'.pools == AfterDrop() && !Apart(s'.pools)
    {
      DropOutcome(order, s', ok);
    }
  }

  lemma BeforeDropIsConsistent()
    ensures Consistent(BeforeDrop())
  {
    hide Idle, ExpectedCache;
    IdleIsConsistent(BeforeDrop(), WithBatch());
  }

  lemma Overlap(pools: map<string, PoolView>)
    requires pools == AfterDrop()
    ensures !Apart(pools)
  {
    assert 2 in Footprint(pools["batch"]) && 2 in Footprint(pools[DEFAULT]);
  }

  lemma DroppedActivation()
    ensures BeforeDrop().pendingCfg == Some(WithoutBatch()) && BeforeDrop().containers == map[]
    ensures BeforeDrop().pools == Idle(WithBatch())
    ensures
      var pools := Activated(Idle(WithBatch()), WithoutBatch());
      ResetSoFar(pools, pools.Keys) == AfterDrop()
  {
    hide ExpectedCache;
    ActivatedBatch();
    ResetIdle(AfterDrop());
  }

  lemma ActivatedBatch()
    ensures Activated(Idle(WithBatch()), WithoutBatch()) == AfterDrop()
  {
    BatchConfigs(RESERVED);
    BatchConfigs(DEFAULT);
    BatchConfigs("batch");
    assert Idle(WithBatch()).Keys == {RESERVED, DEFAULT, "batch"} && WithoutBatch().Keys == {RESERVED, DEFAULT};
    hide NewConfig;
    ActivatedIdle(Idle(WithBatch()), WithoutBatch(), AfterDrop());
  }

  lemma BatchConfigs(p: string)
    requires p in {RESERVED, DEFAULT, "batch"}
    ensures NewConfig(Idle(WithBatch()), WithoutBatch(), p) == AfterDrop()[p].cfg
    ensures p in Idle(WithBatch()) && Idle(WithBatch())[p].pinned == {} && Idle(WithBatch())[p].used == 0
  {
  }

  /** Activation of idle pools. */
  lemma ActivatedIdle(pools: map<string, PoolView>, cfg: NodeConfig, after: map<string, PoolView>)
    requires after.Keys == pools.Keys + cfg.Keys
    requires forall p :: p in pools ==> pools[p].pinned == {} && pools[p].used == 0
    requires forall p :: p in after ==>
               && NewConfig(pools, cfg, p) == after[p].cfg
               && after[p].cfg.Some? && after[p].cfg.value.cpus.Some?
               && after[p] == PoolView(after[p].cfg.value.cpus.value, {}, 0, after[p].cfg)
    ensures Activated(pools, cfg) == after
  {
    hide NewConfig;
    forall p | p in after ensures after[p].shared - {} == after[p].shared { }
  }

  lemma ResetIdle(pools: map<string, PoolView>)
    requires forall p :: p in pools ==> pools[p].pinned == {}
    ensures ResetSoFar(pools, pools.Keys) == pools
  {
    forall p | p in pools ensures Footprint(pools[p]) == pools[p].shared {
      assert pools[p].shared + {} == pools[p].shared;
    }
  }

  /** The configuration is taken in use, a container takes a share of the dropped pool, and another configuration is
      tried. */
  ghost predicate BatchDropped(order: seq<string>, s1: State, ok1: bool, s2: State, ok2: bool, result: CPUSet,
                               cfg: NodeConfig, order3: seq<string>, s3: State, ok3: bool)
    requires ValidEnv(ThreeCores())
  {
    && Reconciled(ThreeCores(), BeforeDrop(), order, s1, ok1)
    && TookShare(s1, "x", "batch", 500, s2, ok2, result)
    && Reconciled(ThreeCores(), s2.(pendingCfg := Some(cfg)), order3, s3, ok3)
  }

  lemma BatchHappens(cfg: NodeConfig)
    requires ValidEnv(ThreeCores())
    ensures exists order, s1, ok1, s2, ok2, result, order3, s3, ok3 ::
              BatchDropped(order, s1, ok1, s2, ok2, result, cfg, order3, s3, ok3)
  {
    DroppedActivation();
    hide Reconciled, TookShare, BeforeDrop, ThreeCores, ValidEnv;
    var order, s1, ok1 := PendingHappens(ThreeCores(), BeforeDrop(), WithoutBatch());
    var s2, ok2, result := TookShareExists(s1, "x", "batch", 500);
    var order3, s3, ok3 := PendingHappens(ThreeCores(), s2.(pendingCfg := Some(cfg)), cfg);
    assert BatchDropped(order, s1, ok1, s2, ok2, result, cfg, order3, s3, ok3);
  }

  lemma BatchOutcome(order: seq<string>, s1: State, ok1: bool, s2: State, ok2: bool, result: CPUSet,
                     cfg: NodeConfig, order3: seq<string>, s3: State, ok3: bool)
    requires ValidEnv(ThreeCores()) && BatchDropped(order, s1, ok1, s2, ok2, result, cfg, order3, s3, ok3)
    requires "batch" !in cfg
    ensures ok1 && ok2 && result == {2} && !ok3
    ensures "x" in s3.containers && s3.containers["x"].pool == "batch" && "batch" !in s3.pools && !Serviceable(s3)
  {
    DropOutcome(order, s1, ok1);
    BatchShare(s1, s2, ok2, result);
    hide Reconciled, TookShare, BeforeDrop, ThreeCores, ValidEnv, Serviceable, AfterDrop, WithoutBatch, Busy,
        ConfigRecorded, Apart;
    DroppedPoolIsLost(ThreeCores(), s2.(pendingCfg := Some(cfg)), order3, s3, ok3, "x");
  }

  /** Whatever configuration without the dropped pool is tried next, it is rejected, and the pool is deleted under its
      container. */
  lemma DroppedPoolDeleted(cfg: NodeConfig)
    requires "batch" !in cfg
    ensures ValidEnv(ThreeCores())
    ensures exists order, s1, ok1, s2, ok2, result, order3, s3, ok3 ::
              BatchDropped(order, s1, ok1, s2, ok2, result, cfg, order3, s3, ok3)
    ensures forall order, s1, ok1, s2, ok2, result, order3, s3, ok3 ::
              BatchDropped(order, s1, ok1, s2, ok2, result, cfg, order3, s3, ok3) ==>
                && ok1 && ok2 && result == {2} && !ok3
                && "x" in s3.containers && s3.containers["x"].pool == "batch" && "batch" !in s3.pools
                && !Serviceable(s3)
  {
    ThreeCoresAreValid();
    hide *;
    BatchHappens(cfg);
    forall order, s1, ok1, s2, ok2, result, order3, s3, ok3 |
      BatchDropped(order, s1, ok1, s2, ok2, result, cfg, order3, s3, ok3)
      ensures ok1 && ok2 && result == {2} && !ok3
      ensures "x" in s3.containers && s3.containers["x"].pool == "batch" && "batch" !in s3.pools && !Serviceable(s3)
    {
      BatchOutcome(order, s1, ok1, s2, ok2, result, cfg, order3, s3, ok3);
    }
  }

  lemma BatchShare(s: State, s': State, ok: bool, result: CPUSet)
    requires s.pools == AfterDrop()
    requires s.currentCfg == WithoutBatch() && TookShare(s, "x", "batch", 500, s', ok, result)
    ensures ok && result == {2} && "x" in s'.containers && s'.containers["x"] == Container("x", "batch", {}, 500)
    ensures "batch" in Busy(s'.pools) && "batch" !in s'.currentCfg
    ensures forall pending :: ConfigRecorded(s'.(pendingCfg := pending))
  {
    hide Measure;
  }

  // Lost CPUs

  /** Two cores have two threads, of which the allocator takes one each to be offline. */
  ghost function Hyperthreads(): Env {
    var pair, pair' := CpuInfo(0, {1, 2}), CpuInfo(0, {3, 4});
    Env(Machine(map[0 := CpuInfo(0, {0}), 1 := pair, 2 := pair, 3 := pair', 4 := pair'], {}), {2, 4})
  }

  function ThreeDefault(): NodeConfig {
    map[RESERVED := Plain({0, 3}), DEFAULT := Plain({1, 2, 4})]
  }

  ghost function BeforeLoss(): State {
    State(Idle(ThreeDefault()), map[], {}, ThreeDefault(), None, ExpectedCache(Idle(ThreeDefault())), {0, 1, 2, 3, 4})
  }

  lemma HyperthreadsAreValid()
    ensures ValidEnv(Hyperthreads())
  {
    var t := Hyperthreads().m.topo;
    assert 0 in t[0].threads - {2, 4} && 1 in t[1].threads - {2, 4} && 1 in t[2].threads - {2, 4};
    assert 3 in t[3].threads - {2, 4} && 3 in t[4].threads - {2, 4};
  }

  lemma BeforeLossIsConsistent()
    ensures Consistent(BeforeLoss())
  {
    hide Idle, ExpectedCache;
    IdleIsConsistent(BeforeLoss(), ThreeDefault());
  }

  lemma LossOfOne(s': State, ok: bool)
    ensures ValidEnv(Hyperthreads())
    ensures Took(Hyperthreads(), BeforeLoss(), "x", DEFAULT, 2000, 2000, s', ok) ==>
              && ok && "x" in s'.containers && s'.containers["x"] == Container("x", DEFAULT, {}, 0)
              && DEFAULT in s'.pools && s'.pools[DEFAULT].shared == {2, 4} && s'.pools[DEFAULT].pinned == {}
  {
    var e, s := Hyperthreads(), BeforeLoss();
    HyperthreadsAreValid();
    DefaultBefore();
    hide ExpectedCache, ValidEnv, Measure, BeforeLoss, AllocSpec.Outcome;
    if Took(e, s, "x", DEFAULT, 2000, 2000, s', ok) {
      var result :| TookCpus(e, s, "x", DEFAULT, 2, s', ok, result);
      var left := TookFrom(e, s, "x", DEFAULT, 2, s', ok, result);
      hide TookCpus;
      LossOutcome(result, left, ok);
    }
  }

  /** Two of the three default CPUs are asked for, one of which the allocator can use: the request succeeds, the
      container has no CPUs at all, and the pool has lost the one that was usable. */
  lemma LostCpu()
    ensures ValidEnv(Hyperthreads()) && Consistent(BeforeLoss())
    ensures DEFAULT in BeforeLoss().pools && BeforeLoss().pools[DEFAULT].shared == {1, 2, 4}
    ensures exists s', ok :: Took(Hyperthreads(), BeforeLoss(), "x", DEFAULT, 2000, 2000, s', ok)
    ensures forall s', ok :: Took(Hyperthreads(), BeforeLoss(), "x", DEFAULT, 2000, 2000, s', ok) ==>
              && ok && "x" in s'.containers && s'.containers["x"] == Container("x", DEFAULT, {}, 0)
              && DEFAULT in s'.pools && s'.pools[DEFAULT].shared == {2, 4} && s'.pools[DEFAULT].pinned == {}
  {
    HyperthreadsAreValid();
    BeforeLossIsConsistent();
    DefaultBefore();
    hide *;
    var s', ok := TookExists(Hyperthreads(), BeforeLoss(), "x", DEFAULT, 2000, 2000);
    forall s', ok | Took(Hyperthreads(), BeforeLoss(), "x", DEFAULT, 2000, 2000, s', ok)
      ensures ok && "x" in s'.containers && s'.containers["x"] == Container("x", DEFAULT, {}, 0)
      ensures DEFAULT in s'.pools && s'.pools[DEFAULT].shared == {2, 4} && s'.pools[DEFAULT].pinned == {}
    {
      LossOfOne(s', ok);
    }
  }

  lemma LossOutcome(result: CPUSet, left: CPUSet, ok: bool)
    requires ValidEnv(Hyperthreads())
    requires AllocSpec.Outcome(Hyperthreads().m.topo, Hyperthreads().allocOffline, {1, 2, 4}, 2, result, left, ok)
    ensures ok && result == {} && left == {2, 4}
  {
    OneUsable(Hyperthreads().m.topo);
    hide Hyperthreads, AllocSpec.Usable, ValidEnv;
    assert {1, 2, 4} - {1} == {2, 4};
  }

  lemma OneUsable(t: Topology)
    requires t == Hyperthreads().m.topo
    ensures AllocSpec.Usable(t, {2, 4}, {1, 2, 4}) == {1} && Hyperthreads().allocOffline == {2, 4}
    ensures |{1, 2, 4}| == 3 && |{1}| == 1
  {
  }

  lemma DefaultBefore()
    ensures DEFAULT in BeforeLoss().pools && BeforeLoss().pools[DEFAULT].shared == {1, 2, 4}
    ensures BeforeLoss().pools[DEFAULT].pinned == {}
  {
    hide ExpectedCache;
  }

  // CPU 0 as a sibling

  /** CPUs 0 and 1 are siblings. */
  ghost function Siblings01(): Env {
    Env(Machine(map[0 := CpuInfo(0, {0, 1}), 1 := CpuInfo(0, {0, 1}), 2 := CpuInfo(0, {2})], {}), {})
  }

  /** Nothing is reserved, and an HT-free pool has CPU 1. */
  function NothingReserved(): NodeConfig {
    map[RESERVED := Config(0, None, false, false), DEFAULT := Plain({2}), "fast" := Config(0, Some({1}), false, true)]
  }

  lemma Siblings01AreValid()
    ensures ValidEnv(Siblings01())
  {
    var t := Siblings01().m.topo;
    assert 0 in t[0].threads - {} && 0 in t[1].threads - {} && 2 in t[2].threads - {};
  }

  lemma NothingReservedIsSetUp()
    ensures ValidMachine(Siblings01().m)
    ensures WithReserved(Siblings01().m, NothingReserved()) ==
            Some(NothingReserved()[RESERVED := Config(0, Some({}), false, false)])
  {
    Siblings01AreValid();
    FirstCpusShape(Siblings01().m.topo, 0, 0, 0);
    hide FirstCpus, ValidTopology;
  }

  lemma NothingReservedFits(cfg: NodeConfig)
    requires cfg == NothingReserved()[RESERVED := Config(0, Some({}), false, false)]
    ensures Fits(Siblings01().m, cfg, cfg.Keys) && 0 in ToOffline(Siblings01().m, cfg, cfg.Keys)
  {
    var m := Siblings01().m;
    SiblingsOf1();
    assert SibsOf(m, cfg, "fast") == {0} && SibsOf(m, cfg, RESERVED) == {} && SibsOf(m, cfg, DEFAULT) == {};
    assert 0 in SibsOf(m, cfg, "fast");
    hide SibsOf, Siblings;
  }

  lemma SiblingsOf1()
    ensures Siblings(Siblings01().m.topo, {1}) == {0}
  {
    var t := Siblings01().m.topo;
    assert 0 in t[1].threads && 1 in {1};
    forall d ensures d in Siblings(t, {1}) <==> d == 0 {
    }
  }

  /** No pool has been configured yet, and the configuration is pending. */
  ghost function BeforeAny(cache: map<string, PoolData>): State {
    NoPools({0, 1, 2}, cache).(pendingCfg := Some(NothingReserved()))
  }

  lemma SiblingOutcome(order: seq<string>, s': State, ok: bool, cache: map<string, PoolData>)
    requires ValidEnv(Siblings01()) && Reconciled(Siblings01(), BeforeAny(cache), order, s', ok)
    ensures ok && 0 in s'.online && !HtFree(Siblings01().m, s'.currentCfg, Siblings01().m.topo.Keys - s'.online)
  {
    var e, cfg, s := Siblings01(), NothingReserved(), BeforeAny(cache);
    NothingReservedIsSetUp();
    var cfg1 := WithReserved(e.m, cfg).value;
    NothingReservedFits(cfg1);
    NothingReservedIsAcceptable();
    var accepts := ReconciledAs(e, s, order, s', ok);
    assert Busy(s.pools) == {};
    hide *;
    NoneOverlookedAgrees(e.m, Busy(s.pools), cfg);
    PreparationMeans(e.m, Busy(s.pools), cfg, order);
    AcceptedMeans(e, s, cfg, order, s');
    ExactlyOfflined(e, s, cfg, order, s');
    OffliningMeans(e.m, {}, cfg);
    OnlineZero(e.m.topo.Keys, s'.online, s'.offlined);
  }

  /** The configuration is accepted; CPU 0 cannot be taken offline, so the HT-free pool is not HT-free. */
  lemma SiblingOfCpu0(cache: map<string, PoolData>)
    ensures ValidEnv(Siblings01())
    ensures exists order, s', ok :: Reconciled(Siblings01(), BeforeAny(cache), order, s', ok)
    ensures forall order, s', ok :: Reconciled(Siblings01(), BeforeAny(cache), order, s', ok) ==>
              ok && 0 in s'.online && !HtFree(Siblings01().m, s'.currentCfg, Siblings01().m.topo.Keys - s'.online)
  {
    Siblings01AreValid();
    assert BeforeAny(cache).pendingCfg == Some(NothingReserved());
    hide *;
    var order, s', ok := PendingHappens(Siblings01(), BeforeAny(cache), NothingReserved());
    forall order, s', ok | Reconciled(Siblings01(), BeforeAny(cache), order, s', ok)
      ensures ok && 0 in s'.online && !HtFree(Siblings01().m, s'.currentCfg, Siblings01().m.topo.Keys - s'.online)
    {
      SiblingOutcome(order, s', ok, cache);
    }
  }

  lemma OnlineZero(all: CPUSet, online: CPUSet, offlined: CPUSet)
    requires 0 in all && online <= all && all - online == offlined - {0}
    ensures 0 in online
  {
    assert 0 !in all - online;
  }

  lemma NothingReservedIsSensible()
    ensures Sensible(NothingReserved())
    ensures forall p :: p in NothingReserved() ==> !Claims(NothingReserved()[p])
  {
  }

  lemma NothingReservedIsAcceptable()
    ensures ValidMachine(Siblings01().m) && Acceptable(Siblings01().m, {}, NothingReserved())
    ensures Sensible(NothingReserved()) && 0 in Offlined(Siblings01().m, NothingReserved())
    ensures Siblings01().m.topo.Keys == {0, 1, 2}
    ensures forall p :: p in NothingReserved() && Claims(NothingReserved()[p]) ==> !NothingReserved()[p].disableHT
  {
    assert Siblings01().m.topo.Keys == {0, 1, 2};
    NothingReservedIsSensible();
    NothingReservedIsSetUp();
    var cfg1 := NothingReserved()[RESERVED := Config(0, Some({}), false, false)];
    NothingReservedFits(cfg1);
    hide WithReserved, Fits, ToOffline, ValidMachine, Siblings01, Sensible, NothingReserved, Acceptable;
    AcceptableWithoutClaims(Siblings01().m, NothingReserved(), cfg1);
  }

  lemma AcceptableWithoutClaims(m: Machine, cfg: NodeConfig, cfg1: NodeConfig)
    requires ValidMachine(m) && WithReserved(m, cfg) == Some(cfg1) && Fits(m, cfg1, cfg1.Keys)
    requires forall p :: p in cfg1 ==> !Claims(cfg1[p])
    ensures Acceptable(m, {}, cfg)
  {
    hide WithReserved, Fits, ValidMachine;
  }

  // CPUs kept offline

  /** CPUs 1 and 2 are siblings. */
  ghost function Siblings12(): Env {
    Env(Machine(map[0 := CpuInfo(0, {0}), 1 := CpuInfo(0, {1, 2}), 2 := CpuInfo(0, {1, 2}), 3 := CpuInfo(0, {3})], {}),
        {})
  }

  function LargeDefault(): NodeConfig {
    map[RESERVED := Plain({0}), DEFAULT := Plain({1, 2, 3})]
  }

  /** CPU 1 goes to an HT-free pool, so CPU 2 goes offline. */
  function FastPool(): NodeConfig {
    map[RESERVED := Plain({0}), DEFAULT := Plain({3}), "fast" := Config(0, Some({1}), false, true)]
  }

  /** A container has CPUs 2 and 3 of the default pool exclusively. */
  ghost function OnTwoCpus(): map<string, PoolView> {
    map[RESERVED := PoolView({0}, {}, 0, Some(Plain({0}))),
        DEFAULT := PoolView({1}, {2, 3}, 0, Some(Plain({1, 2, 3})))]
  }

  ghost function BeforeFast(): World {
    var s := State(OnTwoCpus(), map["x" := Container("x", DEFAULT, {2, 3}, 2000)], {}, LargeDefault(), None,
                   ExpectedCache(OnTwoCpus()), {0, 1, 2, 3});
    World(s, Snapshot(s))
  }

  lemma Siblings12AreValid()
    ensures ValidEnv(Siblings12()) && Siblings12().m.topo.Keys == {0, 1, 2, 3} && Siblings12().m.isolated == {}
    ensures Siblings12().allocOffline == {}
  {
    var t := Siblings12().m.topo;
    assert 0 in t[0].threads - {} && 1 in t[1].threads - {} && 2 in t[2].threads - {} && 3 in t[3].threads - {};
  }

  lemma FastFields()
    ensures
      var s := BeforeFast().s;
      && s.pools == OnTwoCpus() && s.containers == map["x" := Container("x", DEFAULT, {2, 3}, 2000)]
      && s.currentCfg == LargeDefault() && s.online == {0, 1, 2, 3} && s.cache == ExpectedCache(OnTwoCpus())
      && BeforeFast().pub == Snapshot(s)
  {
    hide Snapshot, ExpectedCache, OnTwoCpus, LargeDefault;
  }

  lemma FastPools()
    ensures OnTwoCpus().Keys == {RESERVED, DEFAULT} == LargeDefault().Keys && RESERVED != DEFAULT
    ensures
      var reserved, default := OnTwoCpus()[RESERVED], OnTwoCpus()[DEFAULT];
      && Footprint(reserved) == {0} && reserved.shared == {0} && reserved.pinned == {} && reserved.used == 0
      && Footprint(default) == {1, 2, 3} && default.shared == {1} && default.pinned == {2, 3} && default.used == 0
  {
  }

  lemma FastCpus()
    ensures NewCpus(OnTwoCpus(), FastPool(), RESERVED) == {0} && NewCpus(OnTwoCpus(), FastPool(), DEFAULT) == {3}
    ensures NewCpus(OnTwoCpus(), FastPool(), "fast") == {1}
    ensures FastPool().Keys == {RESERVED, DEFAULT, "fast"} && |{RESERVED, DEFAULT, "fast"}| == 3
  {
  }

  lemma FastContainer(cs: map<string, Container>)
    requires cs == map["x" := Container("x", DEFAULT, {2, 3}, 2000)]
    ensures ContainersOk(cs, {RESERVED, DEFAULT}) && AtMostOne(cs, DEFAULT) && AtMostOne(cs, RESERVED)
    ensures Exclusive(cs, RESERVED) == {} && Exclusive(cs, DEFAULT) == {2, 3}
    ensures Sum(Uses(cs, RESERVED)) == 0 && Sum(Uses(cs, DEFAULT)) == 0
  {
    StaleSets.OneContainer(cs, cs["x"], DEFAULT);
    StaleSets.OneContainer(cs, cs["x"], RESERVED);
    hide Exclusive, Sum, Uses;
    assert |{2, 3}| == 2;
  }

  lemma BeforeFastIsConsistent()
    ensures Consistent(BeforeFast().s)
  {
    hide *;
    FastFields();
    FastPools();
    FastContainer(BeforeFast().s.containers);
    StaleSets.SoundTwo(BeforeFast().s, RESERVED, DEFAULT);
    LargeIsCurrent(BeforeFast().s);
  }

  lemma LargeIsCurrent(s: State)
    requires Sound(s) && s.pools == OnTwoCpus() && s.currentCfg == LargeDefault() && s.cache == ExpectedCache(s.pools)
    ensures Consistent(s)
  {
    hide Sound, ExpectedCache;
  }

  lemma LargeOfflinesNone(m: Machine)
    ensures ToOffline(m, LargeDefault(), LargeDefault().Keys) == {}
  {
  }

  lemma BeforeFastIsOk()
    ensures ValidEnv(Siblings12()) && WorldOk(Siblings12(), BeforeFast())
  {
    BeforeFastIsConsistent();
    BeforeFastIsOnline();
    Siblings12AreValid();
    FastFields();
    hide *;
    FaithfulNow(BeforeFast().s);
    OkIs(Siblings12(), BeforeFast());
  }

  lemma OkIs(e: Env, w: World)
    requires Consistent(w.s) && HardwareOk(e, w.s) && Faithful(w.pub, w.s)
    ensures WorldOk(e, w)
  {
  }

  lemma BeforeFastIsOnline()
    ensures HardwareOk(Siblings12(), BeforeFast().s)
  {
    Siblings12AreValid();
    LargeOfflinesNone(Siblings12().m);
    FastFields();
    StaleSets.NoneDead(Siblings12().m.topo);
    LargeHasHt(Siblings12().m);
    hide ToOffline, ExpectedCache, BeforeFast, OnTwoCpus, Siblings12, ValidTopology, NoDeadCore, LargeDefault, HtFree;
    var off := Siblings12().m.topo.Keys - BeforeFast().s.online;
    assert off == {} && {0, 1, 2, 3} - ({} - {0}) == {0, 1, 2, 3};
  }

  lemma LargeHasHt(m: Machine)
    ensures HtFree(m, LargeDefault(), {})
  {
  }

  lemma FastIsSetUp()
    ensures ValidMachine(Siblings12().m) && WithReserved(Siblings12().m, FastPool()) == Some(FastPool())
    ensures Resolved(Siblings12().m, FastPool()) == FastPool()
  {
    Siblings12AreValid();
    hide ValidTopology;
  }

  lemma SiblingsOf1In12()
    ensures Siblings(Siblings12().m.topo, {1}) == {2}
  {
    var t := Siblings12().m.topo;
    assert 2 in t[1].threads && 1 in {1};
    forall d ensures d in Siblings(t, {1}) <==> d == 2 {
    }
  }

  lemma FastSettings()
    ensures
      var m, cfg := Siblings12().m, FastPool();
      && cfg.Keys == {RESERVED, DEFAULT, "fast"}
      && CpusOf(cfg, RESERVED) == {0} && CpusOf(cfg, DEFAULT) == {3} && CpusOf(cfg, "fast") == {1}
      && SibsOf(m, cfg, RESERVED) == {} && SibsOf(m, cfg, DEFAULT) == {} && SibsOf(m, cfg, "fast") == {2}
      && !cfg[RESERVED].isolated && !cfg[DEFAULT].isolated && !cfg["fast"].isolated
      && Class(m, false) == {0, 1, 2, 3}
  {
    SiblingsOf1In12();
    Siblings12AreValid();
    hide Siblings, Siblings12, ValidTopology, NoDeadCore;
  }

  lemma FastFits()
    ensures Fits(Siblings12().m, FastPool(), FastPool().Keys)
    ensures ToOffline(Siblings12().m, FastPool(), FastPool().Keys) == {2}
  {
    FastSettings();
    hide SibsOf, CpusOf, FastPool, Siblings12, Class;
    assert 2 in SibsOf(Siblings12().m, FastPool(), "fast");
  }

  lemma FastIsSensible()
    ensures Sensible(FastPool()) && DEFAULT in FastPool() && forall p :: p in FastPool() ==> !Claims(FastPool()[p])
  {
  }

  lemma FastIsAcceptable()
    ensures ValidMachine(Siblings12().m) && Acceptable(Siblings12().m, Busy(BeforeFast().s.pools), FastPool())
    ensures WithReserved(Siblings12().m, FastPool()).Some? && Offlined(Siblings12().m, FastPool()) == {2}
  {
    FastIsSetUp();
    FastFits();
    FastIsSensible();
    FastBusy();
    hide WithReserved, Fits, ToOffline, ValidMachine, Siblings12, Sensible, FastPool, Busy, BeforeFast;
  }

  lemma FastBusy()
    ensures Busy(BeforeFast().s.pools) <= FastPool().Keys
  {
    FastFields();
    hide BeforeFast;
  }

  lemma FastKeepsApart()
    ensures KeepsApart(BeforeFast().s.pools, FastPool())
  {
    FastFields();
    FastPools();
    FastCpus();
    hide BeforeFast, OnTwoCpus, FastPool, NewCpus, Footprint, LargeDefault;
  }

  lemma TwoCpus()
    ensures {3} + {2, 3} == {2, 3} && |{2, 3}| == 2
  {
  }

  /** The default pool is down to the CPUs the container has pinned. */
  lemma FastServed()
    ensures ServedFrom(BeforeFast().s, FastPool(), DEFAULT) == {2, 3}
    ensures DEFAULT in BeforeFast().s.pools && BeforeFast().s.pools[DEFAULT].pinned == {2, 3}
    ensures NewCpus(BeforeFast().s.pools, FastPool(), DEFAULT) + {2, 3} == {2, 3}
    ensures RESERVED in BeforeFast().s.pools && BeforeFast().s.pools[RESERVED].pinned == {}
    ensures BeforeFast().s.pools.Keys == {RESERVED, DEFAULT}
  {
    FastFields();
    FastPools();
    FastCpus();
    hide BeforeFast, OnTwoCpus, FastPool, NewCpus, Footprint, LargeDefault;
    TwoCpus();
  }

  lemma FastLeavesEnough()
    ensures LeavesEnough(Siblings12(), BeforeFast().s, FastPool())
  {
    hide *;
    FastServed();
    FastFields();
    FastContainer(BeforeFast().s.containers);
    PinsAll(Siblings12(), {2, 3});
    PinsNone(Siblings12(), NewCpus(BeforeFast().s.pools, FastPool(), RESERVED) + {},
             AtMostOne(BeforeFast().s.containers, RESERVED));
    LeavesTwo(Siblings12(), BeforeFast().s, FastPool(), RESERVED, DEFAULT);
  }

  lemma PinsAll(e: Env, cpus: CPUSet)
    ensures Suffices(e, cpus, cpus, true)
  {
  }

  lemma PinsNone(e: Env, cpus: CPUSet, alone: bool)
    ensures Suffices(e, cpus, {}, alone)
  {
  }

  lemma LeavesTwo(e: Env, s: State, cfg: NodeConfig, p: string, q: string)
    requires s.pools.Keys == {p, q}
    requires Suffices(e, NewCpus(s.pools, cfg, p) + s.pools[p].pinned, s.pools[p].pinned, AtMostOne(s.containers, p))
    requires Suffices(e, NewCpus(s.pools, cfg, q) + s.pools[q].pinned, s.pools[q].pinned, AtMostOne(s.containers, q))
    ensures LeavesEnough(e, s, cfg)
  {
    hide Suffices, NewCpus, AtMostOne;
  }

  lemma FastIsGentle()
    ensures ValidEnv(Siblings12()) && Gentle(Siblings12(), BeforeFast().s, FastPool())
    ensures Mild(Siblings12(), BeforeFast().s, FastPool())
  {
    Siblings12AreValid();
    FastIsSetUp();
    FastIsSensible();
    FastKeepsApart();
    FastLeavesEnough();
    FastFields();
    FastPools();
    FastCpus();
    hide BeforeFast, OnTwoCpus, FastPool, NewCpus, Footprint, LargeDefault, WithReserved, Resolved, Sensible,
        KeepsApart, LeavesEnough, ValidTopology, NoDeadCore, Acceptable;
    GentleWith(Siblings12(), BeforeFast().s, FastPool());
  }

  lemma GentleWith(e: Env, s: State, cfg: NodeConfig)
    requires ValidEnv(e) && Sensible(cfg) && DEFAULT in cfg && s.pools.Keys <= cfg.Keys
    requires WithReserved(e.m, cfg).Some? && Resolved(e.m, cfg) == cfg
    requires KeepsApart(s.pools, cfg) && LeavesEnough(e, s, cfg)
    ensures Gentle(e, s, cfg) && Mild(e, s, cfg)
  {
    hide KeepsApart, LeavesEnough, WithReserved, Resolved, ValidTopology, NoDeadCore, Acceptable, Ready;
  }

  /** The container can get nothing but the two CPUs it has. */
  lemma FastChoice()
    ensures ValidEnv(Siblings12()) && "x" in BeforeFast().s.containers
    ensures Choice(Siblings12(), BeforeFast().s, FastPool(), "x") == {2, 3}
  {
    hide *;
    Siblings12AreValid();
    FastFields();
    FastServed();
    FastContainer(BeforeFast().s.containers);
    TwoCpus();
    AllPossible(Siblings12(), {2, 3});
    SoleChoice(Siblings12(), BeforeFast().s, FastPool(), "x");
  }

  lemma AllPossible(e: Env, cpus: CPUSet)
    requires ValidEnv(e)
    ensures Possible(e.m.topo, e.allocOffline, cpus, |cpus|) == cpus
  {
    hide WholeParts;
  }

  /** A world that is all right, and an acceptable gentle configuration: whatever happens, the container keeps both its
      CPUs, one of which is then offline as a sibling of an HT-free pool. */
  lemma KeptOffline()
    ensures ValidEnv(Siblings12()) && WorldOk(Siblings12(), BeforeFast())
    ensures Mild(Siblings12(), BeforeFast().s, FastPool())
    ensures exists w' :: Tried(Siblings12(), BeforeFast(), FastPool(), w')
    ensures forall w' :: Tried(Siblings12(), BeforeFast(), FastPool(), w') ==>
              "x" in w'.s.containers && w'.s.containers["x"].cpus == {2, 3} && 2 in Siblings12().m.topo &&
              2 !in w'.s.online
  {
    var e, w, cfg := Siblings12(), BeforeFast(), FastPool();
    hide *;
    Siblings12AreValid();
    BeforeFastIsOk();
    FastIsGentle();
    FastIsAcceptable();
    FastIsSetUp();
    FastChoice();
    FastFields();
    TwoCpus();
    var some := TriedExists(e, w, cfg);
    assert Tried(e, w, cfg, some);
    forall w' | Tried(e, w, cfg, w')
      ensures "x" in w'.s.containers && w'.s.containers["x"].cpus == {2, 3} && 2 in e.m.topo && 2 !in w'.s.online
    {
      TriedKeeps(e, w, cfg, w');
      SameSize(w.s.containers, w'.s.containers, "x");
      TriedChoice(e, w, cfg, w', "x");
      OfSameSize(w'.s.containers["x"].cpus, {2, 3});
      NowOffline(e, w, cfg, w');
      assert 2 in e.m.topo.Keys - w'.s.online;
    }
  }

  lemma SameSize(cs: map<string, Container>, cs': map<string, Container>, a: string)
    requires Alike(cs, cs') && a in cs
    ensures a in cs' && |cs'[a].cpus| == |cs[a].cpus|
  {
    assert AlikeContainer(cs[a], cs'[a]);
  }

  // A pool in use

  /** Four cores with one thread each. */
  ghost function FourCores(): Env {
    Env(Machine(map[0 := CpuInfo(0, {0}), 1 := CpuInfo(0, {1}), 2 := CpuInfo(0, {2}), 3 := CpuInfo(0, {3})], {}), {})
  }

  function WithDb(): NodeConfig {
    map[RESERVED := Plain({0}), DEFAULT := Plain({1}), "db" := Plain({2, 3})]
  }

  /** The pool db is not named any more, and the default pool claims what is left. */
  function WithoutDb(): NodeConfig {
    map[RESERVED := Plain({0}), DEFAULT := Config(CLAIM_LEFTOVER, None, false, false)]
  }

  /** A container has all CPUs of db exclusively; the configuration without it is pending. */
  ghost function DbInUse(): State {
    var pools := map[RESERVED := PoolView({0}, {}, 0, Some(Plain({0}))),
                     DEFAULT := PoolView({1}, {}, 0, Some(Plain({1}))),
                     "db" := PoolView({}, {2, 3}, 0, Some(Plain({2, 3})))];
    State(pools, map["x" := Container("x", "db", {2, 3}, 2000)], {}, WithDb(), Some(WithoutDb()), ExpectedCache(pools),
          {0, 1, 2, 3})
  }

  lemma FourCoresAreValid()
    ensures ValidEnv(FourCores())
  {
    var t := FourCores().m.topo;
    assert 0 in t[0].threads - {} && 1 in t[1].threads - {} && 2 in t[2].threads - {} && 3 in t[3].threads - {};
  }

  lemma DbFields()
    ensures
      var s := DbInUse();
      && s.pendingCfg == Some(WithoutDb()) && "db" in s.pools && "db" !in WithoutDb()
      && s.pools["db"].pinned == {2, 3} && s.pools["db"].used == 0
      && s.containers == map["x" := Container("x", "db", {2, 3}, 2000)]
      && s.currentCfg == WithDb() && s.pools.Keys == WithDb().Keys
  {
    hide ExpectedCache;
  }

  /** Nothing but the use of the pool speaks against the configuration. */
  lemma WithoutDbIsFeasible()
    ensures ValidMachine(FourCores().m) && Acceptable(FourCores().m, {}, WithoutDb())
  {
    FourCoresAreValid();
    var m, cfg := FourCores().m, WithoutDb();
    WithoutDbIsReady();
    WithoutDbNames();
    hide FourCores, WithoutDb, ValidTopology, Settings.Feasible, Settings.AreReserved;
    Settings.FeasibleIff(m, {}, cfg, {0});
  }

  lemma WithoutDbIsReady()
    ensures Ready(WithoutDb()) && ("" in WithoutDb() ==> WithoutDb()[""].cpuCount != -1)
  {
  }

  lemma WithoutDbNames()
    ensures Settings.AreReserved(FourCores().m, WithoutDb(), {0}) && Settings.Feasible(FourCores().m, WithoutDb(), {0})
  {
    var m, cfg := FourCores().m, WithoutDb();
    assert Settings.Named(cfg, {0}, RESERVED) == {0} && Settings.Named(cfg, {0}, DEFAULT) == {};
    assert Settings.OtherThreads(m, cfg, {0}) == {};
    hide Settings.Named, Settings.OtherThreads;
    assert 1 in Settings.Unclaimed(m, cfg, {0}, false);
  }

  /** Whatever happens, the configuration is rejected, and pools, containers and settings stay as they are. */
  lemma BusyPoolStays()
    ensures ValidEnv(FourCores()) && Acceptable(FourCores().m, {}, WithoutDb())
    ensures exists order, s', ok :: Reconciled(FourCores(), DbInUse(), order, s', ok)
    ensures forall order, s', ok :: Reconciled(FourCores(), DbInUse(), order, s', ok) ==>
              !ok && s'.pools == DbInUse().pools && s'.containers == DbInUse().containers && s'.currentCfg == WithDb()
  {
    FourCoresAreValid();
    WithoutDbIsFeasible();
    DbFields();
    DbIsRecorded();
    hide *;
    var some, s1, ok1 := PendingHappens(FourCores(), DbInUse(), WithoutDb());
    forall order, s', ok | Reconciled(FourCores(), DbInUse(), order, s', ok)
      ensures !ok && s'.pools == DbInUse().pools && s'.containers == DbInUse().containers && s'.currentCfg == WithDb()
    {
      Promises.DropsOnlyIdleIff(FourCores(), DbInUse(), order, s', ok);
      assert DbInUse().pools["db"].pinned != {};
      var accepts := ReconciledAs(FourCores(), DbInUse(), order, s', ok);
      RollbackIsExactIff(FourCores(), DbInUse(), WithoutDb(), s');
      RejectedFields(FourCores(), DbInUse(), WithoutDb(), s');
    }
  }

  lemma DbIsRecorded()
    ensures ConfigRecorded(DbInUse())
  {
    hide ExpectedCache;
  }

  lemma RejectedFields(e: Env, s: State, cfg: NodeConfig, s': State)
    requires ValidEnv(e) && Rejected(e, s, cfg, s')
    ensures s'.containers == s.containers && s'.currentCfg == s.currentCfg
  {
  }
}
