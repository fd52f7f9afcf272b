/** What a reconfiguration can do to containers with exclusive CPUs: when they stay off CPUs that others were told to
    use and off CPUs that go offline, when they may get such CPUs, and when they are bound to. */
module Conflicts {
  import opened CpuSets
  import opened Topology
  import opened NodeConfigs
  import opened Preparation
  import opened PoolState
  import opened Reconciliation
  import opened Choices
  import opened Outcomes
  import opened Runs
  import AllocSpec

  /** No container's exclusive CPUs, as they are now, are among those that others were told to use. */
  ghost predicate ApartFromPublished(w: World) {
    forall a :: a in w.s.containers ==> NotTold(w.s.containers[a].cpus, w.pub, a)
  }

  /** The CPUs that the containers of a pool are served from when a configuration is taken in use. */
  ghost function ServedFrom(s: State, cfg: NodeConfig, p: string): CPUSet {
    NewCpus(s.pools, cfg, p) + PinnedOf(s.pools, p)
  }

  /** The CPUs a container can get then. */
  ghost function Choice(e: Env, s: State, cfg: NodeConfig, a: string): CPUSet
    requires ValidEnv(e) && a in s.containers
  {
    var p := s.containers[a].pool;
    Attainable(e.m.topo, e.allocOffline, ServedFrom(s, cfg, p), Demands(s.containers, p), a)
  }

  /** No container with exclusive CPUs can get CPUs that others were told to use. */
  ghost predicate Harmless(e: Env, w: World, cfg: NodeConfig)
    requires ValidEnv(e)
  {
    forall a :: a in w.s.containers && w.s.containers[a].cpus != {} ==> NotTold(Choice(e, w.s, cfg, a), w.pub, a)
  }

  /** A configuration is accepted that is not harmless. */
  ghost predicate Disturbs(e: Env, w: World, ev: Event)
    requires ValidEnv(e)
  {
    Reconfigures(e, w, ev) && !Harmless(e, w, Resolved(e.m, ev.cfg))
  }

  lemma FreshIsApart(w: World)
    requires Consistent(w.s) && Fresh(w)
    ensures ApartFromPublished(w)
  {
    hide Steady, ExpectedCache, Snapshot, NotTold;
    forall a | a in w.s.containers ensures NotTold(w.s.containers[a].cpus, w.pub, a) {
      SnapshotIsolation(w.s, a);
    }
  }

  // What an accepted configuration can lead to

  /** A tried configuration that is acceptable is accepted in the state where it is pending. */
  lemma TriedAccepted(e: Env, w: World, cfg: NodeConfig, w': World) returns (s: State, order: seq<string>)
    requires ValidEnv(e) && WorldOk(e, w) && Mild(e, w.s, cfg) && Tried(e, w, cfg, w')
    requires Acceptable(e.m, Busy(w.s.pools), cfg)
    ensures s == w.s.(pendingCfg := Some(cfg)) && Sound(s) && Gentle(e, s, cfg)
    ensures IsOrder(order, cfg.Keys) && Accepts(e.m, Busy(s.pools), cfg, order) && Accepted(e, s, cfg, order, w'.s)
  {
    s := w.s.(pendingCfg := Some(cfg));
    var ok;
    order, ok :| Reconciled(e, s, order, w'.s, ok);
    MildNames(e, w.s, cfg);
    hide *;
    PendingIsGentle(e, w, cfg);
    var accepts := ReconciledAs(e, s, order, w'.s, ok);
    NoneOverlookedAgrees(e.m, Busy(w.s.pools), cfg);
    PreparationMeans(e.m, Busy(w.s.pools), cfg, order);
  }

  lemma PendingIsGentle(e: Env, w: World, cfg: NodeConfig)
    requires ValidEnv(e) && WorldOk(e, w) && Mild(e, w.s, cfg) && Acceptable(e.m, Busy(w.s.pools), cfg)
    ensures
      var s := w.s.(pendingCfg := Some(cfg));
      Sound(s) && Gentle(e, s, cfg) && s.pools == w.s.pools && s.containers == w.s.containers
  {
    var s := w.s.(pendingCfg := Some(cfg));
    hide Sound, ConfigCurrent, ExpectedCache, HardwareOk, Faithful, Acceptable, Gentle;
    GentleSamePools(e, w.s, s, cfg);
    PendingConsistent(e, w.s, cfg);
  }

  /** The outcomes of trying an acceptable configuration are the reallocations of the activated pools. */
  lemma TriedReallocates(e: Env, w: World, cfg: NodeConfig, w': World) returns (pools: map<string, PoolView>)
    requires ValidEnv(e) && WorldOk(e, w) && Mild(e, w.s, cfg) && Tried(e, w, cfg, w')
    requires Acceptable(e.m, Busy(w.s.pools), cfg)
    ensures CanReallocate(e, pools, w.s.containers) && ActivatesTo(w.s.pools, Resolved(e.m, cfg), pools)
    ensures Reallocates(e, pools, w.s.containers, w'.s.pools, w'.s.containers)
    ensures Reallocated(e, pools, w.s.containers, w'.s.pools, w'.s.containers)
    ensures w'.pub == w.pub && Alike(w.s.containers, w'.s.containers)
  {
    hide *;
    TriedKeeps(e, w, cfg, w');
    var s, order := TriedAccepted(e, w, cfg, w');
    MildNames(e, w.s, cfg);
    AcceptedMeans(e, s, cfg, order, w'.s);
    pools := AcceptedReallocates(e, s, cfg, order, w'.s);
  }

  /** Conversely, each reallocation of the activated pools is an outcome. */
  lemma TriedWith(e: Env, w: World, cfg: NodeConfig, pools: map<string, PoolView>, cs: map<string, Container>)
    returns (w': World)
    requires ValidEnv(e) && WorldOk(e, w) && Mild(e, w.s, cfg) && Acceptable(e.m, Busy(w.s.pools), cfg)
    requires
      var before := Activated(w.s.pools, Resolved(e.m, cfg));
      && Reallocates(e, before, w.s.containers, pools, cs)
      && pools.Keys == before.Keys && cs.Keys == w.s.containers.Keys
    ensures Tried(e, w, cfg, w') && w'.s.pools == pools && w'.s.containers == cs && w'.pub == w.pub
  {
    var s := w.s.(pendingCfg := Some(cfg));
    MildNames(e, w.s, cfg);
    hide WorldOk, Mild, Acceptable, Activated, Reallocates, Reconciled, Resolved, NoneOverlooked, ValidEnv;
    var order := AnyOrder(cfg.Keys);
    var s' := AcceptedExists(e, s, cfg, order, pools, cs);
    w' := World(s', w.pub);
    assert Reconciled(e, s, order, w'.s, true);
  }

  lemma ServedFootprint(e: Env, s: State, cfg: NodeConfig, pools: map<string, PoolView>, p: string)
    requires ActivatesTo(s.pools, cfg, pools) && p in s.pools
    ensures p in pools && Footprint(pools[p]) == ServedFrom(s, cfg, p)
  {
    ActivatedHasAll(s.pools, cfg, pools);
    ActivatedFootprint(s.pools, cfg, pools, p);
  }

  /** A container after an acceptable configuration was tried. */
  lemma TriedChoice(e: Env, w: World, cfg: NodeConfig, w': World, a: string)
    requires ValidEnv(e) && WorldOk(e, w) && Mild(e, w.s, cfg) && Tried(e, w, cfg, w')
    requires Acceptable(e.m, Busy(w.s.pools), cfg) && a in w'.s.containers
    ensures a in w.s.containers && AlikeContainer(w.s.containers[a], w'.s.containers[a]) && w'.pub == w.pub
    ensures w.s.containers[a].cpus != {} ==> w'.s.containers[a].cpus <= Choice(e, w.s, Resolved(e.m, cfg), a)
  {
    AcceptableIs(e, w.s, cfg);
    WorldIsSound(e, w);
    hide *;
    var pools := TriedReallocates(e, w, cfg, w');
    AlikeIn(w.s.containers, w'.s.containers, a);
    if w.s.containers[a].cpus != {} {
      PoolOf(w.s, a);
      ServedFootprint(e, w.s, Resolved(e.m, cfg), pools, w.s.containers[a].pool);
      ReallocatesGives(e, pools, w.s.containers, w'.s.pools, w'.s.containers, a);
      ChoiceIs(e, w.s, Resolved(e.m, cfg), a);
    }
  }

  lemma ChoiceIs(e: Env, s: State, cfg: NodeConfig, a: string)
    requires ValidEnv(e) && a in s.containers
    ensures
      var p := s.containers[a].pool;
      Choice(e, s, cfg, a) == Attainable(e.m.topo, e.allocOffline, ServedFrom(s, cfg, p), Demands(s.containers, p), a)
  {
    hide Attainable;
  }

  lemma WorldIsSound(e: Env, w: World)
    requires WorldOk(e, w)
    ensures Sound(w.s)
  {
  }

  lemma AcceptableIs(e: Env, s: State, cfg: NodeConfig)
    requires ValidEnv(e) && Acceptable(e.m, Busy(s.pools), cfg)
    ensures ValidMachine(e.m) && WithReserved(e.m, cfg).Some?
  {
  }

  lemma AlikeIn(cs: map<string, Container>, cs': map<string, Container>, a: string)
    requires Alike(cs, cs') && a in cs'
    ensures a in cs && AlikeContainer(cs[a], cs'[a])
  {
  }

  lemma SamePool(c: Container, c': Container)
    requires AlikeContainer(c, c')
    ensures c'.pool == c.pool && (c'.cpus == {} <==> c.cpus == {})
  {
  }

  /** Each CPU that a container can get, it gets in some outcome. */
  lemma TriedGiving(e: Env, w: World, cfg: NodeConfig, a: string, c: int) returns (w': World)
    requires ValidEnv(e) && WorldOk(e, w) && Mild(e, w.s, cfg) && Acceptable(e.m, Busy(w.s.pools), cfg)
    requires a in w.s.containers && c in Choice(e, w.s, Resolved(e.m, cfg), a)
    ensures Tried(e, w, cfg, w') && w'.pub == w.pub && a in w'.s.containers && c in w'.s.containers[a].cpus
  {
    AcceptableIs(e, w.s, cfg);
    WorldIsSound(e, w);
    hide *;
    PendingIsGentle(e, w, cfg);
    var r, cs := Resolved(e.m, cfg), w.s.containers;
    var pools := GentleReallocates(e, w.s.(pendingCfg := Some(cfg)), cfg);
    PoolOf(w.s, a);
    ServedFootprint(e, w.s, r, pools, cs[a].pool);
    ChoiceIs(e, w.s, r, a);
    CanCovers(e, pools, cs);
    CoveredOk(e, pools, cs);
    var pools', cs' := ReallocatesGiving(e, pools, cs, a, c);
    w' := TriedWith(e, w, cfg, pools', cs');
  }

  // Harmless configurations

  /** A configuration is harmless exactly if no outcome of taking it in use gives a container exclusive CPUs that
      others were told to use. */
  lemma HarmlessIff(e: Env, w: World, cfg: NodeConfig)
    requires ValidEnv(e) && WorldOk(e, w) && Mild(e, w.s, cfg) && Acceptable(e.m, Busy(w.s.pools), cfg)
    ensures Harmless(e, w, Resolved(e.m, cfg)) <==> forall w' :: Tried(e, w, cfg, w') ==> ApartFromPublished(w')
  {
    AcceptableIs(e, w.s, cfg);
    var r := Resolved(e.m, cfg);
    hide Acceptable, Mild, WorldOk, Tried, ApartFromPublished, Resolved, Choice, NotTold, ValidEnv;
    if Harmless(e, w, r) {
      forall w' | Tried(e, w, cfg, w') ensures ApartFromPublished(w') {
        HarmlessTried(e, w, cfg, w');
      }
    } else {
      var a :| a in w.s.containers && w.s.containers[a].cpus != {} && !NotTold(Choice(e, w.s, r, a), w.pub, a);
      var c := SomeTold(Choice(e, w.s, r, a), w.pub, a);
      var w' := TriedGiving(e, w, cfg, a, c);
      ConflictAt(w', a, c);
      assert Tried(e, w, cfg, w') && !ApartFromPublished(w');
    }
  }

  /** What others than the given container were told to use. */
  ghost function ToldOthers(pub: Published, a: string): CPUSet {
    pub.defaultCpus + set b, c | b in pub.assignments && b != a && c in pub.assignments[b] :: c
  }

  lemma NotToldIs(cpus: CPUSet, pub: Published, a: string)
    ensures NotTold(cpus, pub, a) <==> cpus !! ToldOthers(pub, a)
  {
    if NotTold(cpus, pub, a) {
      forall c | c in cpus ensures c !in ToldOthers(pub, a) {
      }
    }
    if cpus !! ToldOthers(pub, a) {
      forall b | b in pub.assignments && b != a ensures cpus !! pub.assignments[b] {
        assert forall c :: c in pub.assignments[b] ==> c in ToldOthers(pub, a);
      }
    }
  }

  lemma SomeTold(cpus: CPUSet, pub: Published, a: string) returns (c: int)
    requires !NotTold(cpus, pub, a)
    ensures c in cpus && c in ToldOthers(pub, a)
  {
    NotToldIs(cpus, pub, a);
    hide *;
    var both := cpus * ToldOthers(pub, a);
    if both == {} {
      forall x | x in cpus ensures x !in ToldOthers(pub, a) {
        assert x !in both;
      }
    }
    c := Pick(both);
  }

  lemma ConflictAt(w: World, a: string, c: int)
    requires a in w.s.containers && c in w.s.containers[a].cpus && c in ToldOthers(w.pub, a)
    ensures !ApartFromPublished(w)
  {
    NotToldIs(w.s.containers[a].cpus, w.pub, a);
    hide NotTold, ToldOthers;
  }

  lemma HarmlessTried(e: Env, w: World, cfg: NodeConfig, w': World)
    requires ValidEnv(e) && WorldOk(e, w) && Mild(e, w.s, cfg) && Tried(e, w, cfg, w')
    requires Acceptable(e.m, Busy(w.s.pools), cfg) && Harmless(e, w, Resolved(e.m, cfg))
    ensures ApartFromPublished(w')
  {
    hide Acceptable, Harmless, NotTold, Mild, WorldOk, Tried, Resolved, ValidEnv, Choice, AlikeContainer;
    forall a | a in w'.s.containers ensures NotTold(w'.s.containers[a].cpus, w'.pub, a) {
      AcceptableIs(e, w.s, cfg);
      TriedChoice(e, w, cfg, w', a);
      HarmlessFor(e, w, Resolved(e.m, cfg), a, w'.s.containers[a]);
    }
  }

  lemma HarmlessFor(e: Env, w: World, cfg: NodeConfig, a: string, c: Container)
    requires ValidEnv(e) && Harmless(e, w, cfg) && a in w.s.containers && AlikeContainer(w.s.containers[a], c)
    requires w.s.containers[a].cpus != {} ==> c.cpus <= Choice(e, w.s, cfg, a)
    ensures NotTold(c.cpus, w.pub, a)
  {
    SamePool(w.s.containers[a], c);
    hide Choice, AlikeContainer, ValidEnv;
  }

  lemma TriedApart(e: Env, w: World, cfg: NodeConfig, w': World)
    requires ValidEnv(e) && WorldOk(e, w) && Mild(e, w.s, cfg) && Tried(e, w, cfg, w')
    requires ApartFromPublished(w) && !Disturbs(e, w, Configure(cfg))
    ensures ApartFromPublished(w')
  {
    NotReconfigured(e, w, cfg, w');
    hide Acceptable, Harmless, NotTold, Mild, WorldOk, Tried, Snapshot, Resolved;
    if Acceptable(e.m, Busy(w.s.pools), cfg) {
      HarmlessTried(e, w, cfg, w');
    }
  }

  lemma StepKeepsApart(e: Env, w: World, ev: Event, w': World)
    requires ValidEnv(e) && WorldOk(e, w) && MildEvent(e, w.s, ev) && Step(e, w, ev, w')
    requires (ApartFromPublished(w) && !Disturbs(e, w, ev)) || ev.Remove? || (ev.Add? && w' != w)
    ensures ApartFromPublished(w')
  {
    StepKeeps(e, w, ev, w');
    hide Consistent, HardwareOk, Faithful, Added, Removed, Tried, Snapshot, Mild, NotTold, Harmless;
    HasRequiredPools(w'.s);
    match ev
    case Add(id, pool, req, lim) =>
      AddedKeeps(e, w, id, pool, req, lim, w');
      if w' != w {
        FreshIsApart(w');
      }
    case Remove(id) =>
      RemovedKeeps(e, w, id, w');
      FreshIsApart(w');
    case Configure(cfg) => TriedApart(e, w, cfg, w');
  }

  /** Isolation from what is published: from any moment at which everything was published, no container ever uses
      exclusive CPUs that another one, or the default set, was told to use, until a configuration is accepted that is
      not harmless. */
  lemma {:induction false} ApartOverRuns(e: Env, ws: seq<World>, evs: seq<Event>, i: nat, j: nat)
    requires ValidEnv(e) && Run(e, ws, evs) && WorldOk(e, ws[0]) && i <= j < |ws|
    requires JustPublished(ws, evs, i) || ApartFromPublished(ws[i])
    requires forall k :: i <= k < j ==> !Disturbs(e, ws[k], evs[k])
    ensures ApartFromPublished(ws[j])
    decreases j
  {
    hide WorldOk, Step, MildEvent, Disturbs, ApartFromPublished;
    if i < j {
      ApartOverRuns(e, ws, evs, i, j - 1);
      RunKeeps(e, ws, evs, j - 1);
      RunStep(e, ws, evs, j - 1);
      StepKeepsApart(e, ws[j - 1], evs[j - 1], ws[j]);
    } else if !ApartFromPublished(ws[i]) {
      RunKeeps(e, ws, evs, i - 1);
      RunStep(e, ws, evs, i - 1);
      StepKeepsApart(e, ws[i - 1], evs[i - 1], ws[i]);
    }
  }

  // What the allocator decides

  /** The allocator has no freedom: each container with exclusive CPUs can get just as many as it needs. */
  ghost predicate Decided(e: Env, s: State, cfg: NodeConfig)
    requires ValidEnv(e)
  {
    forall a :: a in s.containers && s.containers[a].cpus != {} ==>
      |Choice(e, s, cfg, a)| == |s.containers[a].cpus|
  }

  /** Where the allocator has no freedom, all outcomes are alike: each keeps containers apart from what is published
      exactly if the configuration is harmless. */
  lemma DecidedIff(e: Env, w: World, cfg: NodeConfig, w': World)
    requires ValidEnv(e) && WorldOk(e, w) && Mild(e, w.s, cfg) && Tried(e, w, cfg, w')
    requires Acceptable(e.m, Busy(w.s.pools), cfg) && Decided(e, w.s, Resolved(e.m, cfg))
    ensures forall a :: a in w.s.containers && w.s.containers[a].cpus != {} ==>
              a in w'.s.containers && w'.s.containers[a].cpus == Choice(e, w.s, Resolved(e.m, cfg), a)
    ensures ApartFromPublished(w') <==> Harmless(e, w, Resolved(e.m, cfg))
  {
    AcceptableIs(e, w.s, cfg);
    var r := Resolved(e.m, cfg);
    TriedKeeps(e, w, cfg, w');
    hide Acceptable, Mild, WorldOk, Tried, Resolved, Choice, NotTold, ValidEnv, Decided;
    forall a | a in w.s.containers && w.s.containers[a].cpus != {}
      ensures a in w'.s.containers && w'.s.containers[a].cpus == Choice(e, w.s, r, a)
    {
      TriedChoice(e, w, cfg, w', a);
      DecidedFor(e, w.s, r, a);
      OfSameSize(w'.s.containers[a].cpus, Choice(e, w.s, r, a));
    }
    if Harmless(e, w, r) {
      HarmlessTried(e, w, cfg, w');
    }
  }

  lemma DecidedFor(e: Env, s: State, cfg: NodeConfig, a: string)
    requires ValidEnv(e) && Decided(e, s, cfg) && a in s.containers && s.containers[a].cpus != {}
    ensures |Choice(e, s, cfg, a)| == |s.containers[a].cpus|
  {
    hide Choice, ValidEnv;
  }

  /** The only container with exclusive CPUs of a pool can get what the allocator can give to a single request. */
  lemma SoleChoice(e: Env, s: State, cfg: NodeConfig, a: string)
    requires ValidEnv(e) && a in s.containers && s.containers[a].cpus != {}
    requires AtMostOne(s.containers, s.containers[a].pool)
    ensures Choice(e, s, cfg, a) ==
            Possible(e.m.topo, e.allocOffline, ServedFrom(s, cfg, s.containers[a].pool), |s.containers[a].cpus|)
  {
    SoleDemand(s.containers, a);
    EnvDead(e);
    hide Attainable, Possible, Demands, ServedFrom, ValidEnv;
    var p := s.containers[a].pool;
    AloneGets(e.m.topo, e.allocOffline, ServedFrom(s, cfg, p), Demands(s.containers, p), a);
  }

  lemma SoleDemand(cs: map<string, Container>, a: string)
    requires a in cs && cs[a].cpus != {} && AtMostOne(cs, cs[a].pool)
    ensures Demands(cs, cs[a].pool) == map[a := |cs[a].cpus|]
  {
    assert HasExclusive(cs[a], cs[a].pool);
  }

  /** Several containers of a pool can only get usable CPUs, unless they have all CPUs of the pool. */
  lemma ChoiceIsUsable(e: Env, w: World, cfg: NodeConfig, a: string)
    requires ValidEnv(e) && WorldOk(e, w) && Mild(e, w.s, cfg) && Acceptable(e.m, Busy(w.s.pools), cfg)
    requires a in w.s.containers && w.s.containers[a].pool in w.s.pools
    ensures
      var p := w.s.containers[a].pool;
      var from := ServedFrom(w.s, Resolved(e.m, cfg), p);
      Choice(e, w.s, Resolved(e.m, cfg), a) <=
      if |from| == |w.s.pools[p].pinned| then from else AllocSpec.Usable(e.m.topo, e.allocOffline, from)
  {
    AcceptableIs(e, w.s, cfg);
    hide *;
    var r, p := Resolved(e.m, cfg), w.s.containers[a].pool;
    var from := ServedFrom(w.s, r, p);
    forall c | c in Choice(e, w.s, r, a)
      ensures c in if |from| == |w.s.pools[p].pinned| then from else AllocSpec.Usable(e.m.topo, e.allocOffline, from)
    {
      var w' := TriedGiving(e, w, cfg, a, c);
      var pools := TriedReallocates(e, w, cfg, w');
      ServedFootprint(e, w.s, r, pools, p);
      SamePoolIn(w, w', a);
      ExclusiveIn(w'.s.containers, a);
      PoolAfter(e, w.s, r, pools, w'.s, p);
    }
  }

  lemma SamePoolIn(w: World, w': World, a: string)
    requires Alike(w.s.containers, w'.s.containers) && a in w.s.containers
    ensures a in w'.s.containers && w'.s.containers[a].pool == w.s.containers[a].pool
  {
  }

  lemma PoolAfter(e: Env, s: State, cfg: NodeConfig, pools: map<string, PoolView>, s': State, p: string)
    requires ActivatesTo(s.pools, cfg, pools) && Reallocated(e, pools, s.containers, s'.pools, s'.containers)
    requires p in s.pools && p in pools
    ensures |Exclusive(s'.containers, p)| == |s.pools[p].pinned|
    ensures Exclusive(s'.containers, p) <=
            if |Footprint(pools[p])| == |s.pools[p].pinned| then Footprint(pools[p])
            else AllocSpec.Usable(e.m.topo, e.allocOffline, Footprint(pools[p]))
  {
    hide NewCpus, UsedOf, ContainersOk, Exclusive;
    assert pools[p].pinned == s.pools[p].pinned;
    assert ReallocatedPool(e, pools[p], s'.pools[p], Exclusive(s'.containers, p));
    hide ActivatesTo, Reallocated;
    ChoiceOf(e, pools[p], s'.pools[p], Exclusive(s'.containers, p));
  }

  lemma ChoiceOf(e: Env, pv: PoolView, pv': PoolView, exclusive: CPUSet)
    requires ReallocatedPool(e, pv, pv', exclusive)
    ensures |exclusive| == |pv.pinned|
    ensures exclusive <= if |Footprint(pv)| == |pv.pinned| then Footprint(pv)
                         else AllocSpec.Usable(e.m.topo, e.allocOffline, Footprint(pv))
  {
    hide AllocSpec.Usable;
    if pv'.shared == {} {
      assert {} + pv'.pinned == pv'.pinned;
    }
  }

  // Conflicts that can be avoided

  ghost function AllTold(w: World): map<string, CPUSet> {
    map a | a in w.s.containers :: ToldOthers(w.pub, a)
  }

  /** The containers of each pool can be served, in some order, without any of them getting CPUs that others were told
      to use. */
  ghost predicate CanStayApart(e: Env, w: World, cfg: NodeConfig)
    requires ValidEnv(e)
  {
    forall p :: p in w.s.pools ==>
      CanAvoid(e.m.topo, e.allocOffline, ServedFrom(w.s, cfg, p), Demands(w.s.containers, p), AllTold(w))
  }

  /** Pool by pool, that is exactly when some outcome of taking a configuration in use keeps all containers apart from
      what is published. */
  lemma CanStayApartIff(e: Env, w: World, cfg: NodeConfig)
    requires ValidEnv(e) && WorldOk(e, w) && Mild(e, w.s, cfg) && Acceptable(e.m, Busy(w.s.pools), cfg)
    ensures CanStayApart(e, w, Resolved(e.m, cfg)) <==> exists w' :: Tried(e, w, cfg, w') && ApartFromPublished(w')
  {
    AcceptableIs(e, w.s, cfg);
    hide Acceptable, Mild, WorldOk, Tried, ApartFromPublished, Resolved, CanStayApart, ValidEnv;
    if CanStayApart(e, w, Resolved(e.m, cfg)) {
      var w' := TriedAvoiding(e, w, cfg);
      assert Tried(e, w, cfg, w') && ApartFromPublished(w');
    }
    forall w' | Tried(e, w, cfg, w') && ApartFromPublished(w') ensures CanStayApart(e, w, Resolved(e.m, cfg)) {
      TriedAvoids(e, w, cfg, w');
    }
  }

  lemma TriedAvoids(e: Env, w: World, cfg: NodeConfig, w': World)
    requires ValidEnv(e) && WorldOk(e, w) && Mild(e, w.s, cfg) && Acceptable(e.m, Busy(w.s.pools), cfg)
    requires Tried(e, w, cfg, w') && ApartFromPublished(w')
    ensures WithReserved(e.m, cfg).Some? && CanStayApart(e, w, Resolved(e.m, cfg))
  {
    AcceptableIs(e, w.s, cfg);
    var r, cs := Resolved(e.m, cfg), w.s.containers;
    hide Acceptable, Mild, WorldOk, Tried, Resolved, ApartFromPublished, ValidEnv, CanAvoid, CanReallocate, Reallocates,
        Reallocated, ActivatesTo, Footprint, ServedFrom, Demands, WithReserved, ValidMachine, AllTold, Alike;
    var pools := TriedReallocates(e, w, cfg, w');
    ApartKeepsOff(w, w');
    forall p | p in w.s.pools
      ensures CanAvoid(e.m.topo, e.allocOffline, ServedFrom(w.s, r, p), Demands(cs, p), AllTold(w))
    {
      ServedFootprint(e, w.s, r, pools, p);
      ReallocatesAvoids(e, pools, cs, w'.s.pools, w'.s.containers, AllTold(w), p);
    }
  }

  lemma ApartKeepsOff(w: World, w': World)
    requires ApartFromPublished(w') && w'.pub == w.pub
    ensures KeepOff(Exclusives(w.s.containers), w'.s.containers, AllTold(w))
  {
    hide NotTold, ToldOthers;
    forall a | a in Exclusives(w.s.containers) && a in w'.s.containers
      ensures w'.s.containers[a].cpus !! AllTold(w)[a]
    {
      NotToldIs(w'.s.containers[a].cpus, w.pub, a);
    }
  }

  lemma KeptOffIsApart(w: World, w': World)
    requires w'.pub == w.pub && w'.s.containers.Keys == w.s.containers.Keys
    requires KeepOff(Exclusives(w.s.containers), w'.s.containers, AllTold(w))
    requires Alike(w.s.containers, w'.s.containers)
    ensures ApartFromPublished(w')
  {
    hide NotTold, ToldOthers, AlikeContainer;
    forall a | a in w'.s.containers ensures NotTold(w'.s.containers[a].cpus, w'.pub, a) {
      SamePool(w.s.containers[a], w'.s.containers[a]);
      NotToldIs(w'.s.containers[a].cpus, w.pub, a);
      if w.s.containers[a].cpus != {} {
        assert a in Exclusives(w.s.containers);
      }
    }
  }

  lemma TriedAvoiding(e: Env, w: World, cfg: NodeConfig) returns (w': World)
    requires ValidEnv(e) && WorldOk(e, w) && Mild(e, w.s, cfg) && Acceptable(e.m, Busy(w.s.pools), cfg)
    requires WithReserved(e.m, cfg).Some? && CanStayApart(e, w, Resolved(e.m, cfg))
    ensures Tried(e, w, cfg, w') && ApartFromPublished(w')
  {
    hide *;
    AcceptableIs(e, w.s, cfg);
    EnvDead(e);
    WorldIsSound(e, w);
    PendingIsGentle(e, w, cfg);
    var r, cs := Resolved(e.m, cfg), w.s.containers;
    var pools := GentleReallocates(e, w.s.(pendingCfg := Some(cfg)), cfg);
    CanCovers(e, pools, cs);
    CoveredOk(e, pools, cs);
    forall p | p in pools
      ensures CanAvoid(e.m.topo, e.allocOffline, Footprint(pools[p]), Demands(cs, p), AllTold(w))
    {
      PoolCanAvoid(e, w, r, pools, p);
    }
    var pools', cs' := ReallocatesAvoiding(e, pools, cs, AllTold(w));
    w' := TriedWith(e, w, cfg, pools', cs');
    TriedKeeps(e, w, cfg, w');
    KeptOffIsApart(w, w');
  }

  lemma PoolCanAvoid(e: Env, w: World, cfg: NodeConfig, pools: map<string, PoolView>, p: string)
    requires ValidEnv(e) && CanStayApart(e, w, cfg) && ActivatesTo(w.s.pools, cfg, pools) && Sound(w.s) && p in pools
    ensures CanAvoid(e.m.topo, e.allocOffline, Footprint(pools[p]), Demands(w.s.containers, p), AllTold(w))
  {
    if p in w.s.pools {
      ServedFootprint(e, w.s, cfg, pools, p);
    } else {
      NoDemands(w.s, p);
    }
  }

  lemma NoDemands(s: State, p: string)
    requires Sound(s) && p !in s.pools
    ensures Demands(s.containers, p) == map[]
  {
    assert forall a :: a in s.containers ==> s.containers[a].pool != p;
  }

  /** The only container with exclusive CPUs of a pool can avoid a conflict exactly if a single request can: it is not
      bound to get CPUs that others were told to use, and enough others are usable. */
  lemma SoleAvoids(e: Env, w: World, cfg: NodeConfig, a: string)
    requires ValidEnv(e) && Sound(w.s) && a in w.s.containers && w.s.containers[a].cpus != {}
    requires AtMostOne(w.s.containers, w.s.containers[a].pool)
    ensures
      var p, n := w.s.containers[a].pool, |w.s.containers[a].cpus|;
      CanAvoid(e.m.topo, e.allocOffline, ServedFrom(w.s, cfg, p), Demands(w.s.containers, p), AllTold(w)) <==>
      Avoidable(e.m.topo, e.allocOffline, ServedFrom(w.s, cfg, p), n, ToldOthers(w.pub, a))
  {
    var p := w.s.containers[a].pool;
    SoleDemand(w.s.containers, a);
    EnvDead(e);
    PoolOf(w.s, a);
    ExclusiveIn(w.s.containers, a);
    assert w.s.containers[a].cpus <= ServedFrom(w.s, cfg, p);
    SubsetSize(w.s.containers[a].cpus, ServedFrom(w.s, cfg, p));
    hide CanAvoid, Avoidable, Demands, ServedFrom, ValidEnv, ToldOthers;
    AloneAvoids(e.m.topo, e.allocOffline, ServedFrom(w.s, cfg, p), Demands(w.s.containers, p), AllTold(w), a);
  }

  /** Where no two containers have exclusive CPUs of the same pool, both conditions can be read off the state: whether
      all outcomes, and whether some outcome, of taking a configuration in use keep containers apart from what is
      published. */
  lemma SoleIff(e: Env, w: World, cfg: NodeConfig)
    requires ValidEnv(e) && WorldOk(e, w) && Mild(e, w.s, cfg) && Acceptable(e.m, Busy(w.s.pools), cfg)
    requires forall p :: p in w.s.pools ==> AtMostOne(w.s.containers, p)
    ensures (forall w' :: Tried(e, w, cfg, w') ==> ApartFromPublished(w')) <==>
            forall a :: a in w.s.containers && w.s.containers[a].cpus != {} ==>
              NotTold(SolePossible(e, w.s, Resolved(e.m, cfg), a), w.pub, a)
    ensures (exists w' :: Tried(e, w, cfg, w') && ApartFromPublished(w')) <==>
            forall a :: a in w.s.containers && w.s.containers[a].cpus != {} ==>
              SoleAvoidable(e, w, Resolved(e.m, cfg), a)
  {
    hide *;
    AcceptableIs(e, w.s, cfg);
    WorldIsSound(e, w);
    HarmlessIff(e, w, cfg);
    CanStayApartIff(e, w, cfg);
    SoleHarmless(e, w, Resolved(e.m, cfg));
    SoleStayApart(e, w, Resolved(e.m, cfg));
  }

  /** What the allocator can give to a container when it is served alone. */
  ghost function SolePossible(e: Env, s: State, cfg: NodeConfig, a: string): CPUSet
    requires ValidEnv(e) && a in s.containers
  {
    Possible(e.m.topo, e.allocOffline, ServedFrom(s, cfg, s.containers[a].pool), |s.containers[a].cpus|)
  }

  /** Served alone, a container is not bound to get CPUs that others were told to use. */
  ghost predicate SoleAvoidable(e: Env, w: World, cfg: NodeConfig, a: string)
    requires ValidEnv(e) && a in w.s.containers
  {
    Avoidable(e.m.topo, e.allocOffline, ServedFrom(w.s, cfg, w.s.containers[a].pool), |w.s.containers[a].cpus|,
              ToldOthers(w.pub, a))
  }

  lemma SoleHarmless(e: Env, w: World, cfg: NodeConfig)
    requires ValidEnv(e) && Sound(w.s) && forall p :: p in w.s.pools ==> AtMostOne(w.s.containers, p)
    ensures Harmless(e, w, cfg) <==>
            forall a :: a in w.s.containers && w.s.containers[a].cpus != {} ==>
              NotTold(SolePossible(e, w.s, cfg, a), w.pub, a)
  {
    hide Sound, Choice, NotTold, AtMostOne, SolePossible, ValidEnv;
    forall a | a in w.s.containers && w.s.containers[a].cpus != {}
      ensures Choice(e, w.s, cfg, a) == SolePossible(e, w.s, cfg, a)
    {
      PoolOf(w.s, a);
      SoleIs(e, w.s, cfg, a);
    }
  }

  lemma SoleIs(e: Env, s: State, cfg: NodeConfig, a: string)
    requires ValidEnv(e) && a in s.containers && s.containers[a].cpus != {}
    requires AtMostOne(s.containers, s.containers[a].pool)
    ensures Choice(e, s, cfg, a) == SolePossible(e, s, cfg, a)
  {
    SoleChoice(e, s, cfg, a);
    hide Choice, Possible, ServedFrom, ValidTopology, NoDeadCore;
  }

  lemma SoleStayApart(e: Env, w: World, cfg: NodeConfig)
    requires ValidEnv(e) && Sound(w.s) && forall p :: p in w.s.pools ==> AtMostOne(w.s.containers, p)
    ensures CanStayApart(e, w, cfg) <==>
            forall a :: a in w.s.containers && w.s.containers[a].cpus != {} ==> SoleAvoidable(e, w, cfg, a)
  {
    EnvDead(e);
    hide Sound, CanAvoid, Avoidable, ServedFrom, AllTold, ToldOthers, ValidEnv, Demands, AtMostOne, ValidTopology,
        NoDeadCore;
    forall a | a in w.s.containers && w.s.containers[a].cpus != {}
      ensures w.s.containers[a].pool in w.s.pools
      ensures
        var p := w.s.containers[a].pool;
        CanAvoid(e.m.topo, e.allocOffline, ServedFrom(w.s, cfg, p), Demands(w.s.containers, p), AllTold(w)) <==>
        SoleAvoidable(e, w, cfg, a)
    {
      PoolOf(w.s, a);
      SoleAvoids(e, w, cfg, a);
    }
    if forall a :: a in w.s.containers && w.s.containers[a].cpus != {} ==> SoleAvoidable(e, w, cfg, a) {
      forall p | p in w.s.pools
        ensures CanAvoid(e.m.topo, e.allocOffline, ServedFrom(w.s, cfg, p), Demands(w.s.containers, p), AllTold(w))
      {
        if Demands(w.s.containers, p) == map[] {
          NothingAsked(e.m.topo, e.allocOffline, ServedFrom(w.s, cfg, p), AllTold(w));
        } else {
          var a := Asking(w.s.containers, p);
        }
      }
    }
  }

  lemma NothingAsked(t: Topology, offline: CPUSet, from: CPUSet, avoid: map<string, CPUSet>)
    requires NoDeadCore(t, offline)
    ensures CanAvoid(t, offline, from, map[], avoid)
  {
  }

  lemma Asking(cs: map<string, Container>, p: string) returns (a: string)
    requires Demands(cs, p) != map[]
    ensures a in cs && cs[a].cpus != {} && cs[a].pool == p
  {
    a := Pick(Demands(cs, p).Keys);
  }

  // Too few CPUs

  /** The CPUs that the containers of a pool can get. */
  ghost function PoolChoice(e: Env, s: State, cfg: NodeConfig, p: string): CPUSet
    requires ValidEnv(e)
  {
    set a, c | a in s.containers && HasExclusive(s.containers[a], p) && c in Choice(e, s, cfg, a) :: c
  }

  /** What others than the exclusive containers of a pool were told to use. */
  ghost function Told(w: World, p: string): CPUSet {
    w.pub.defaultCpus +
    set b, c | b in w.pub.assignments && !(b in w.s.containers && HasExclusive(w.s.containers[b], p))
               && c in w.pub.assignments[b] :: c
  }

  /** An acceptable configuration that leaves a pool fewer CPUs to choose from than it needs, not counting those that
      others were told to use, ends in a conflict whatever the allocator chooses. */
  lemma SurelyDisturbed(e: Env, w: World, cfg: NodeConfig, w': World, p: string)
    requires ValidEnv(e) && WorldOk(e, w) && Mild(e, w.s, cfg) && Tried(e, w, cfg, w')
    requires Acceptable(e.m, Busy(w.s.pools), cfg) && p in w.s.pools
    requires |PoolChoice(e, w.s, Resolved(e.m, cfg), p) - Told(w, p)| < |w.s.pools[p].pinned|
    ensures !ApartFromPublished(w')
  {
    AcceptableIs(e, w.s, cfg);
    hide *;
    var pools := TriedReallocates(e, w, cfg, w');
    ServedFootprint(e, w.s, Resolved(e.m, cfg), pools, p);
    PoolAfter(e, w.s, Resolved(e.m, cfg), pools, w'.s, p);
    var choice, now := PoolChoice(e, w.s, Resolved(e.m, cfg), p), Exclusive(w'.s.containers, p);
    ExclusiveChoice(e, w, cfg, w', p);
    var c := TooMany(now, choice, Told(w, p));
    ToldSomeone(w, w', p, c);
  }

  lemma ExclusiveChoice(e: Env, w: World, cfg: NodeConfig, w': World, p: string)
    requires ValidEnv(e) && WorldOk(e, w) && Mild(e, w.s, cfg) && Tried(e, w, cfg, w')
    requires Acceptable(e.m, Busy(w.s.pools), cfg) && WithReserved(e.m, cfg).Some?
    ensures Exclusive(w'.s.containers, p) <= PoolChoice(e, w.s, Resolved(e.m, cfg), p)
  {
    AcceptableIs(e, w.s, cfg);
    hide Acceptable, Mild, WorldOk, Tried, Resolved, Choice, ValidEnv, WithReserved, ValidMachine, AlikeContainer;
    forall a, c | a in w'.s.containers && w'.s.containers[a].pool == p && c in w'.s.containers[a].cpus
      ensures c in PoolChoice(e, w.s, Resolved(e.m, cfg), p)
    {
      TriedChoice(e, w, cfg, w', a);
      SamePool(w.s.containers[a], w'.s.containers[a]);
      assert HasExclusive(w.s.containers[a], p);
    }
  }

  lemma TooMany(now: CPUSet, choice: CPUSet, told: CPUSet) returns (c: int)
    requires now <= choice && |choice - told| < |now|
    ensures c in now && c in told
  {
    if now <= choice - told {
      SubsetSize(now, choice - told);
    }
    c := NotSubset(now, choice - told);
  }

  lemma ToldSomeone(w: World, w': World, p: string, c: int)
    requires Alike(w.s.containers, w'.s.containers) && w'.pub == w.pub
    requires c in Exclusive(w'.s.containers, p) && c in Told(w, p)
    ensures !ApartFromPublished(w')
  {
    var a :| a in w'.s.containers && w'.s.containers[a].pool == p && c in w'.s.containers[a].cpus;
    AlikeIn(w.s.containers, w'.s.containers, a);
    SamePool(w.s.containers[a], w'.s.containers[a]);
    if c !in w.pub.defaultCpus {
      var b :|
        && b in w.pub.assignments && !(b in w.s.containers && HasExclusive(w.s.containers[b], p))
        && c in w.pub.assignments[b];
      assert HasExclusive(w.s.containers[a], p);
      assert b != a;
    }
    assert !NotTold(w'.s.containers[a].cpus, w'.pub, a);
  }

  // CPUs that go offline

  /** No container's exclusive CPU is offline. */
  ghost predicate ExclusiveOnline(e: Env, s: State) {
    forall a :: a in s.containers ==> s.containers[a].cpus !! e.m.topo.Keys - s.online
  }

  /** No container can get a CPU that a configuration takes offline; CPU 0 never goes offline. */
  ghost predicate NoneGoesOffline(e: Env, s: State, cfg: NodeConfig)
    requires ValidEnv(e) && WithReserved(e.m, cfg).Some?
  {
    forall a :: a in s.containers && s.containers[a].cpus != {} ==>
      Choice(e, s, Resolved(e.m, cfg), a) !! Offlined(e.m, cfg) - {0}
  }

  /** That is exactly when all exclusive CPUs are online, whatever comes of taking the configuration in use. */
  lemma ExclusiveOnlineIff(e: Env, w: World, cfg: NodeConfig)
    requires ValidEnv(e) && WorldOk(e, w) && Mild(e, w.s, cfg) && Acceptable(e.m, Busy(w.s.pools), cfg)
    ensures NoneGoesOffline(e, w.s, cfg) <==> forall w' :: Tried(e, w, cfg, w') ==> ExclusiveOnline(e, w'.s)
  {
    hide *;
    AcceptableIs(e, w.s, cfg);
    if NoneGoesOffline(e, w.s, cfg) {
      forall w' | Tried(e, w, cfg, w') ensures ExclusiveOnline(e, w'.s) {
        StaysOnline(e, w, cfg, w');
      }
    } else {
      var a, c := GoesOffline(e, w.s, cfg);
      var w' := TriedGiving(e, w, cfg, a, c);
      NowOffline(e, w, cfg, w');
      NotOnline(e, w'.s, a, c);
      assert Tried(e, w, cfg, w') && !ExclusiveOnline(e, w'.s);
    }
  }

  lemma GoesOffline(e: Env, s: State, cfg: NodeConfig) returns (a: string, c: int)
    requires ValidEnv(e) && WithReserved(e.m, cfg).Some? && !NoneGoesOffline(e, s, cfg)
    ensures a in s.containers && c in Choice(e, s, Resolved(e.m, cfg), a) && c in Offlined(e.m, cfg) - {0}
  {
    hide Choice, Resolved, Offlined, WithReserved, ValidTopology, NoDeadCore;
    a :| a in s.containers && s.containers[a].cpus != {} &&
         !(Choice(e, s, Resolved(e.m, cfg), a) !! Offlined(e.m, cfg) - {0});
    c := Common(Choice(e, s, Resolved(e.m, cfg), a), Offlined(e.m, cfg) - {0});
  }

  lemma Common(a: CPUSet, b: CPUSet) returns (c: int)
    requires !(a !! b)
    ensures c in a && c in b
  {
    var both := a * b;
    if both == {} {
      forall x | x in a ensures x !in b {
        assert x !in both;
      }
    }
    c := Pick(both);
  }

  lemma NotOnline(e: Env, s: State, a: string, c: int)
    requires a in s.containers && c in s.containers[a].cpus && c in e.m.topo.Keys - s.online
    ensures !ExclusiveOnline(e, s)
  {
  }

  /** What is offline after an acceptable configuration was tried. */
  lemma NowOffline(e: Env, w: World, cfg: NodeConfig, w': World)
    requires ValidEnv(e) && WorldOk(e, w) && Mild(e, w.s, cfg) && Tried(e, w, cfg, w')
    requires Acceptable(e.m, Busy(w.s.pools), cfg)
    ensures ValidMachine(e.m) && WithReserved(e.m, cfg).Some?
    ensures e.m.topo.Keys - w'.s.online == Offlined(e.m, cfg) - {0}
  {
    AcceptableIs(e, w.s, cfg);
    WorldIsOnline(e, w);
    hide *;
    var s, order := TriedAccepted(e, w, cfg, w');
    GentleIsSensible(e, s, cfg);
    MildNames(e, w.s, cfg);
    AcceptedMeans(e, s, cfg, order, w'.s);
    ExactlyOfflined(e, s, cfg, order, w'.s);
  }

  lemma WorldIsOnline(e: Env, w: World)
    requires WorldOk(e, w)
    ensures 0 in w.s.online && w.s.online <= e.m.topo.Keys
  {
    hide Consistent, Faithful, HtFree, NoDeadCore;
  }

  lemma StaysOnline(e: Env, w: World, cfg: NodeConfig, w': World)
    requires ValidEnv(e) && WorldOk(e, w) && Mild(e, w.s, cfg) && Tried(e, w, cfg, w')
    requires Acceptable(e.m, Busy(w.s.pools), cfg) && WithReserved(e.m, cfg).Some? && NoneGoesOffline(e, w.s, cfg)
    ensures ExclusiveOnline(e, w'.s)
  {
    NowOffline(e, w, cfg, w');
    hide Acceptable, Mild, WorldOk, Tried, Resolved, Choice, ValidEnv, Offlined, WithReserved, ValidMachine,
        AlikeContainer;
    forall a | a in w'.s.containers ensures w'.s.containers[a].cpus !! e.m.topo.Keys - w'.s.online {
      TriedChoice(e, w, cfg, w', a);
      SamePool(w.s.containers[a], w'.s.containers[a]);
    }
  }
}
