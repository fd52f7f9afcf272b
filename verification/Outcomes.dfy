/** What trying a configuration can lead to: some outcome always, and for each container exactly the CPUs that its
    pool's containers, served in some order, can leave it. */
module Outcomes {
  import opened CpuSets
  import opened Topology
  import opened NodeConfigs
  import opened Preparation
  import opened PoolMetrics
  import opened PoolState
  import opened Reconciliation
  import opened Choices
  import AllocSpec

  // There is always an outcome

  /** A state with the given pools and containers. */
  ghost function During(pools: map<string, PoolView>, cs: map<string, Container>): State {
    State(pools, cs, {}, map[], None, map[], {})
  }

  /** Exclusive allocation always has some result. */
  lemma TookCpusExists(e: Env, s: State, id: string, pool: string, n: int)
    returns (s': State, ok: bool, result: CPUSet)
    requires ValidEnv(e)
    ensures TookCpus(e, s, id, pool, n, s', ok, result)
    ensures s'.pools.Keys == s.pools.Keys && s'.containers.Keys <= s.containers.Keys + {id}
    ensures OnlyOne(s.containers, id, s'.containers)
  {
    var p := ExclusivePool(pool);
    if pool == RESERVED {
      s', ok, result := TookShareExists(s, id, pool, 1000 * n);
    } else if !Allowed(p) || p !in s.pools {
      s', ok, result := s, false, {};
    } else {
      var left;
      result, left, ok := OutcomeExists(e.m.topo, e.allocOffline, s.pools[p].shared, n);
      hide AllocSpec.Outcome, Measure;
      s' := if ok then WithCpus(s, id, p, result, left) else s;
    }
  }

  lemma TookShareExists(s: State, id: string, pool: string, req: int) returns (s': State, ok: bool, result: CPUSet)
    ensures TookShare(s, id, pool, req, s', ok, result) && s'.pools.Keys == s.pools.Keys
    ensures s'.containers.Keys <= s.containers.Keys + {id} && OnlyOne(s.containers, id, s'.containers)
  {
    if !Allowed(pool) {
      s', ok, result := s, true, {};
    } else if pool !in s.pools {
      s', ok, result := s, false, {};
    } else {
      hide Measure;
      s', ok, result := WithShare(s, id, pool, req), true, s.pools[pool].shared;
    }
  }

  /** A container's turn takes place, or its allocation fails. */
  lemma TurnExists(e: Env, pools: map<string, PoolView>, cs: map<string, Container>, id: string)
    returns (ok: bool, pools': map<string, PoolView>, cs': map<string, Container>)
    requires ValidEnv(e) && id in cs
    ensures ok ==> AllocationStep(e, pools, cs, id, pools', cs')
    ensures ok ==> pools'.Keys == pools.Keys && cs'.Keys == cs.Keys && OnlyOne(cs, id, cs')
    ensures !ok ==> AllocationFails(e, pools, cs, id)
  {
    ok, pools', cs' := true, pools, cs;
    if cs[id].cpus != {} {
      var s := During(pools, cs);
      var s', took, result := TookCpusExists(e, s, id, cs[id].pool, |cs[id].cpus|);
      hide TookCpus, ValidEnv;
      ok, pools', cs' := took, s'.pools, s'.containers;
      assert AllocatedAgain(e, s, id, s', ok, result);
    }
  }

  lemma ReachedMore(e: Env, pools0: map<string, PoolView>, cs0: map<string, Container>, order: seq<string>,
                    pools: map<string, PoolView>, cs: map<string, Container>, id: string,
                    pools': map<string, PoolView>, cs': map<string, Container>)
    requires ValidEnv(e) && Reached(e, pools0, cs0, order, pools, cs)
    requires AllocationStep(e, pools, cs, id, pools', cs')
    ensures Reached(e, pools0, cs0, order + [id], pools', cs')
  {
    hide AllocationStep, ValidEnv;
    assert (order + [id])[..|order + [id]| - 1] == order;
  }

  lemma OrderMore(order: seq<string>, id: string)
    requires Distinct(order) && id !in Members(order)
    ensures Distinct(order + [id]) && Members(order + [id]) == Members(order) + {id}
  {
    assert forall x :: x in order + [id] <==> x in Members(order) || x == id;
    forall i, j | 0 <= i < j < |order + [id]| ensures (order + [id])[i] != (order + [id])[j] {
      assert order[i] in Members(order);
    }
  }

  /** From any moment of a reallocation, the containers still to come can have their turns. */
  lemma {:induction false} TurnsExist(e: Env, pools0: map<string, PoolView>, cs0: map<string, Container>,
                                      order: seq<string>, pools: map<string, PoolView>, cs: map<string, Container>)
    returns (order': seq<string>, pools': map<string, PoolView>, cs': map<string, Container>)
    requires ValidEnv(e) && Distinct(order) && Members(order) <= cs0.Keys
    requires Reached(e, ResetSoFar(pools0, pools0.Keys), cs0, order, pools, cs)
    requires pools.Keys == pools0.Keys && cs.Keys == cs0.Keys
    ensures ReallocatesIn(e, pools0, cs0, order', pools', cs')
    ensures pools'.Keys == pools0.Keys && cs'.Keys == cs0.Keys
    ensures forall a :: a in Members(order) ==> cs'[a] == cs[a]
    decreases |cs0.Keys - Members(order)|
  {
    hide Reached, ResetSoFar, AllocationStep, AllocationFails, ValidEnv, Distinct, Members;
    order', pools', cs' := order, pools, cs;
    var todo := cs0.Keys - Members(order);
    if todo == {} {
      assert Members(order) == cs0.Keys;
    } else {
      var id := Pick(todo);
      var ok;
      ok, pools', cs' := TurnExists(e, pools, cs, id);
      if ok {
        ReachedMore(e, ResetSoFar(pools0, pools0.Keys), cs0, order, pools, cs, id, pools', cs');
        OrderMore(order, id);
        assert cs0.Keys - Members(order + [id]) == todo - {id};
        order', pools', cs' := TurnsExist(e, pools0, cs0, order + [id], pools', cs');
      } else {
        pools', cs' := pools, cs;
      }
    }
  }

  lemma ReachedStart(e: Env, pools: map<string, PoolView>, cs: map<string, Container>)
    requires ValidEnv(e)
    ensures Reached(e, ResetSoFar(pools, pools.Keys), cs, [], ResetSoFar(pools, pools.Keys), cs)
    ensures ResetSoFar(pools, pools.Keys).Keys == pools.Keys && Distinct([]) && Members([]) == {}
  {
  }

  lemma ReallocatesExists(e: Env, pools: map<string, PoolView>, cs: map<string, Container>)
    returns (pools': map<string, PoolView>, cs': map<string, Container>)
    requires ValidEnv(e)
    ensures Reallocates(e, pools, cs, pools', cs') && pools'.Keys == pools.Keys && cs'.Keys == cs.Keys
  {
    hide *;
    ReachedStart(e, pools, cs);
    var reset := ResetSoFar(pools, pools.Keys);
    var order;
    order, pools', cs' := TurnsExist(e, pools, cs, [], reset, cs);
    ReallocatesOne(e, pools, cs, order, pools', cs');
  }

  lemma ReallocatesOne(e: Env, pools: map<string, PoolView>, cs: map<string, Container>, order: seq<string>,
                       pools': map<string, PoolView>, cs': map<string, Container>)
    requires ValidEnv(e) && ReallocatesIn(e, pools, cs, order, pools', cs')
    ensures Reallocates(e, pools, cs, pools', cs')
  {
    hide ReallocatesIn, ValidEnv;
  }

  /** The state after a configuration was activated and its containers were reallocated as given. */
  ghost function ActivatedState(e: Env, s: State, cfg: NodeConfig, offlined: CPUSet,
                                pools: map<string, PoolView>, cs: map<string, Container>): State {
    State(pools, cs, offlined, cfg, None, ExpectedCache(pools), OnlineAfter(e.m, s.online, offlined))
  }

  lemma ActivationIs(e: Env, s: State, cfg: NodeConfig, offlined: CPUSet, pools: map<string, PoolView>,
                     cs: map<string, Container>)
    requires ValidEnv(e) && Reallocates(e, Activated(s.pools, cfg), s.containers, pools, cs)
    requires pools.Keys == Activated(s.pools, cfg).Keys && cs.Keys == s.containers.Keys
    ensures Activation(e, s, ActivatedState(e, s, cfg, offlined, pools, cs))
  {
    hide Reallocates, ValidEnv, Activated, ExpectedCache, OnlineAfter;
  }

  /** Whatever is pending, and in whatever order its pools are visited, there is an outcome. */
  lemma ReconciledExists(e: Env, s: State, order: seq<string>) returns (s': State, ok: bool)
    requires ValidEnv(e) && (s.pendingCfg.Some? ==> IsOrder(order, s.pendingCfg.value.Keys))
    ensures Reconciled(e, s, order, s', ok)
  {
    if s.pendingCfg.None? {
      s', ok := s, true;
    } else {
      var cfg := s.pendingCfg.value;
      ok := Accepts(e.m, Busy(s.pools), cfg, order);
      if ok {
        var cfg1 := WithReserved(e.m, cfg).value;
        var scan := ScanAll(e.m, cfg1, order).value;
        var r := WithLeftovers(cfg1, scan);
        hide Accepts, Busy, WithReserved, ScanAll, WithLeftovers, Activated, Activation, Reallocates, ExpectedCache,
            OnlineAfter, ValidMachine, IsOrder, NoDeadCore;
        var pools, cs := ReallocatesExists(e, Activated(s.pools, r), s.containers);
        ActivationIs(e, s, r, scan.offlined, pools, cs);
        s' := ActivatedState(e, s, r, scan.offlined, pools, cs);
      } else {
        s' := RejectedExists(e, s, cfg);
      }
    }
  }

  /** An acceptable configuration can be taken in use with any reallocation of the activated pools. */
  lemma AcceptedExists(e: Env, s: State, cfg: NodeConfig, order: seq<string>, pools: map<string, PoolView>,
                       cs: map<string, Container>)
    returns (s': State)
    requires ValidEnv(e) && s.pendingCfg == Some(cfg) && NoneOverlooked(cfg) && IsOrder(order, cfg.Keys)
    requires Acceptable(e.m, Busy(s.pools), cfg)
    requires
      var before := Activated(s.pools, Resolved(e.m, cfg));
      && Reallocates(e, before, s.containers, pools, cs)
      && pools.Keys == before.Keys && cs.Keys == s.containers.Keys
    ensures Reconciled(e, s, order, s', true) && s'.pools == pools && s'.containers == cs
  {
    NoneOverlookedAgrees(e.m, Busy(s.pools), cfg);
    PreparationMeans(e.m, Busy(s.pools), cfg, order);
    hide Accepts, Busy, ScanAll, WithLeftovers, Activated, Activation, Reallocates, ExpectedCache, OnlineAfter,
        ValidMachine, IsOrder, NoDeadCore, Resolved, Offlined, Passes, WithReserved;
    ActivationIs(e, s, Resolved(e.m, cfg), Offlined(e.m, cfg), pools, cs);
    s' := ActivatedState(e, s, Resolved(e.m, cfg), Offlined(e.m, cfg), pools, cs);
  }

  lemma RejectedExists(e: Env, s: State, cfg: NodeConfig) returns (s': State)
    requires ValidEnv(e)
    ensures Rejected(e, s, cfg, s')
  {
    var base := if WithReserved(e.m, cfg).Some? then WithReserved(e.m, cfg).value else cfg;
    s' := s.(pools := map p | p in s.pools && p in s.currentCfg :: s.pools[p], pendingCfg := Some(base));
    hide WithReserved, ValidMachine, NoDeadCore, ConfigRecorded;
  }

  // What a container can get

  /** The numbers of exclusive CPUs that the containers of a pool have. */
  ghost function Demands(cs: map<string, Container>, p: string): map<string, int> {
    map id | id in cs && HasExclusive(cs[id], p) :: |cs[id].cpus|
  }

  /** A container's CPUs, or those it can still get, are among those it could get at first. */
  ghost predicate Foreseen(e: Env, from: CPUSet, demands: map<string, int>, a: string, p: string, taken: set<string>,
                           pools: map<string, PoolView>, cs: map<string, Container>)
    requires ValidEnv(e)
  {
    && p in pools && a in cs
    && if a in taken then forall c :: c in cs[a].cpus ==> CanGet(e.m.topo, e.allocOffline, from, demands, a, c)
       else forall c :: CanGet(e.m.topo, e.allocOffline, pools[p].shared, demands - taken, a, c) ==>
         CanGet(e.m.topo, e.allocOffline, from, demands, a, c)
  }

  /** The allocation a turn stands for. */
  lemma TurnOutcome(e: Env, pools: map<string, PoolView>, cs: map<string, Container>, id: string,
                    pools': map<string, PoolView>, cs': map<string, Container>)
    returns (result: CPUSet, left: CPUSet)
    requires ValidEnv(e) && AllocationStep(e, pools, cs, id, pools', cs')
    requires id in cs && cs[id].cpus != {} && Exclusable(cs[id].pool) && cs[id].pool in pools
    ensures
      var p, n := cs[id].pool, |cs[id].cpus|;
      && AllocSpec.Outcome(e.m.topo, e.allocOffline, pools[p].shared, n, result, left, true)
      && pools' == pools[p := pools[p].(shared := left, pinned := pools[p].pinned + result)]
      && cs' == cs[id := Container(id, p, result, 1000 * |result|)]
  {
    var s, s';
    s, s', result := TurnIs(e, pools, cs, id, pools', cs');
    hide TookCpus, AllocSpec.Outcome, Measure, AllocationStep, ValidEnv;
    left := TookFrom(e, s, id, cs[id].pool, |cs[id].cpus|, s', true, result);
  }

  /** One turn, seen from a container: its own, that of another one of its pool, or one that does not matter. */
  lemma ForeseenTurn(e: Env, from: CPUSet, demands: map<string, int>, a: string, p: string, taken: set<string>,
                     pools: map<string, PoolView>, cs: map<string, Container>, id: string,
                     pools': map<string, PoolView>, cs': map<string, Container>)
    requires ValidEnv(e) && Foreseen(e, from, demands, a, p, taken, pools, cs) && id !in taken
    requires AllocationStep(e, pools, cs, id, pools', cs') && a in demands
    requires id in cs && (cs[id].cpus != {} ==> Exclusable(cs[id].pool) && cs[id].pool in pools)
    requires id in demands <==> HasExclusive(cs[id], p)
    requires id in demands ==> demands[id] == |cs[id].cpus|
    ensures Foreseen(e, from, demands, a, p, taken + {id}, pools', cs')
  {
    assert p in pools && a in cs && (id in demands ==> cs[id].cpus != {} && cs[id].pool == p);
    hide AllocSpec.Outcome, AllocationStep, Foreseen, CanGet;
    if cs[id].cpus == {} {
      hide *;
      var s, s', result := TurnIs(e, pools, cs, id, pools', cs');
      ForeseenSame(e, from, demands, a, p, taken, pools, cs, id, pools, cs);
    } else {
      var result, left := TurnOutcome(e, pools, cs, id, pools', cs');
      if cs[id].pool == p {
        ForeseenNext(e, from, demands, a, p, taken, pools, cs, id, result, left);
      } else {
        ForeseenSame(e, from, demands, a, p, taken, pools, cs, id, pools', cs');
      }
    }
  }

  lemma ForeseenSame(e: Env, from: CPUSet, demands: map<string, int>, a: string, p: string, taken: set<string>,
                     pools: map<string, PoolView>, cs: map<string, Container>, id: string,
                     pools': map<string, PoolView>, cs': map<string, Container>)
    requires ValidEnv(e) && Foreseen(e, from, demands, a, p, taken, pools, cs)
    requires id !in demands && a in demands && a in cs && p in pools
    requires p in pools' && pools'[p] == pools[p] && a in cs' && cs'[a] == cs[a]
    ensures Foreseen(e, from, demands, a, p, taken + {id}, pools', cs')
  {
    hide CanGet;
    assert demands - (taken + {id}) == demands - taken;
  }

  lemma ForeseenNext(e: Env, from: CPUSet, demands: map<string, int>, a: string, p: string, taken: set<string>,
                     pools: map<string, PoolView>, cs: map<string, Container>, id: string, result: CPUSet, left: CPUSet)
    requires ValidEnv(e) && Foreseen(e, from, demands, a, p, taken, pools, cs) && id !in taken
    requires id in demands && a in demands && p in pools
    requires AllocSpec.Outcome(e.m.topo, e.allocOffline, pools[p].shared, demands[id], result, left, true)
    ensures Foreseen(e, from, demands, a, p, taken + {id},
                     pools[p := pools[p].(shared := left, pinned := pools[p].pinned + result)],
                     cs[id := Container(id, p, result, 1000 * |result|)])
  {
    var t, offline, rest := e.m.topo, e.allocOffline, demands - taken;
    assert demands - (taken + {id}) == rest - {id} && id in rest && rest[id] == demands[id];
    hide AllocSpec.Outcome, ValidEnv;
    if a == id {
      forall c | c in result ensures CanGet(t, offline, from, demands, a, c) {
        assert CanGet(t, offline, pools[p].shared, rest, a, c);
      }
    } else if a !in taken {
      forall c | CanGet(t, offline, left, rest - {id}, a, c) ensures CanGet(t, offline, from, demands, a, c) {
        assert CanGet(t, offline, pools[p].shared, rest, a, c);
      }
    }
  }

  /** At the start of a reallocation everything the pool's containers can get is open. */
  lemma ForeseenStart(e: Env, pools: map<string, PoolView>, cs: map<string, Container>, a: string)
    requires ValidEnv(e) && a in cs && cs[a].pool in pools
    ensures
      var p := cs[a].pool;
      Foreseen(e, Footprint(pools[p]), Demands(cs, p), a, p, {}, ResetSoFar(pools, pools.Keys), cs)
  {
    hide CanGet;
    var demands := Demands(cs, cs[a].pool);
    assert demands - {} == demands;
  }

  lemma DemandOf(cs: map<string, Container>, p: string, id: string)
    requires id in cs
    ensures id in Demands(cs, p) <==> HasExclusive(cs[id], p)
    ensures id in Demands(cs, p) ==> Demands(cs, p)[id] == |cs[id].cpus|
    ensures cs[id].cpus != {} ==> HasExclusive(cs[id], cs[id].pool)
  {
  }

  lemma {:induction false} ReachedForeseen(e: Env, pools0: map<string, PoolView>, cs0: map<string, Container>,
                                           order: seq<string>, pools: map<string, PoolView>,
                                           cs: map<string, Container>, a: string)
    requires ValidEnv(e) && CoversAll(e, pools0, cs0) && Distinct(order) && Members(order) <= cs0.Keys
    requires Reached(e, ResetSoFar(pools0, pools0.Keys), cs0, order, pools, cs)
    requires a in cs0 && cs0[a].cpus != {} && cs0[a].pool in pools0
    ensures
      var p := cs0[a].pool;
      Foreseen(e, Footprint(pools0[p]), Demands(cs0, p), a, p, Members(order), pools, cs)
    decreases |order|
  {
    if order == [] {
      hide CoversAll, Foreseen, ResetSoFar, ValidEnv;
      ForeseenStart(e, pools0, cs0, a);
      assert Members([]) == {};
    } else {
      hide *;
      var last, before := order[|order| - 1], order[..|order| - 1];
      MembersSnoc(order);
      var ps, c := LastTurn(e, ResetSoFar(pools0, pools0.Keys), cs0, order, pools, cs);
      ReachedForeseen(e, pools0, cs0, before, ps, c, a);
      ReachedHolding(e, pools0, cs0, before, ps, c);
      TurnReady(e, pools0, cs0, Members(before), ps, c, last);
      var p := cs0[a].pool;
      DemandOf(cs0, p, a);
      DemandOf(cs0, p, last);
      ForeseenTurn(e, Footprint(pools0[p]), Demands(cs0, p), a, p, Members(before), ps, c, last, pools, cs);
    }
  }

  /** A container whose turn comes is still as it was, in a pool that gives exclusive CPUs. */
  lemma TurnReady(e: Env, pools0: map<string, PoolView>, cs0: map<string, Container>, taken: set<string>,
                  pools: map<string, PoolView>, cs: map<string, Container>, id: string)
    requires CoversAll(e, pools0, cs0) && Holding(e, pools0, cs0 - taken, pools) && Untaken(cs0, taken, cs)
    requires id in cs0 && id !in taken
    ensures id in cs && cs[id] == cs0[id]
    ensures cs[id].cpus != {} ==> Exclusable(cs[id].pool) && cs[id].pool in pools
  {
    hide Covers, Serves;
  }

  /** Reallocation gives a container only CPUs that it can get. */
  lemma ReallocatesGives(e: Env, pools: map<string, PoolView>, cs: map<string, Container>,
                         pools': map<string, PoolView>, cs': map<string, Container>, a: string)
    requires ValidEnv(e) && CanReallocate(e, pools, cs) && Reallocates(e, pools, cs, pools', cs')
    requires a in cs && cs[a].cpus != {} && cs[a].pool in pools
    ensures a in cs'
    ensures
      var p := cs[a].pool;
      cs'[a].cpus <= Attainable(e.m.topo, e.allocOffline, Footprint(pools[p]), Demands(cs, p), a)
  {
    var order :| ReallocatesIn(e, pools, cs, order, pools', cs');
    hide Reached, CanReallocate, ValidEnv, Distinct, Members, AllocationFails, CanGet, CoversAll, Foreseen;
    AllHaveTurns(e, pools, cs, order, pools', cs');
    CanCovers(e, pools, cs);
    ReachedForeseen(e, pools, cs, order, pools', cs', a);
    hide ReallocatesIn, Reallocates, Footprint, Demands, ResetSoFar;
    ForeseenEnd(e, Footprint(pools[cs[a].pool]), Demands(cs, cs[a].pool), a, cs[a].pool, Members(order), pools', cs');
  }

  lemma ForeseenEnd(e: Env, from: CPUSet, demands: map<string, int>, a: string, p: string, taken: set<string>,
                    pools: map<string, PoolView>, cs: map<string, Container>)
    requires ValidEnv(e) && Foreseen(e, from, demands, a, p, taken, pools, cs) && a in taken
    ensures a in cs && cs[a].cpus <= Attainable(e.m.topo, e.allocOffline, from, demands, a)
  {
    hide CanGet, ValidTopology, NoDeadCore;
    forall c | c in cs[a].cpus ensures c in Attainable(e.m.topo, e.allocOffline, from, demands, a) {
      CanGetWithin(e.m.topo, e.allocOffline, from, demands, a, c);
    }
  }

  // Everything a container can get it does get in some outcome

  /** A turn with a given outcome. */
  lemma TurnWith(e: Env, pools: map<string, PoolView>, cs: map<string, Container>, id: string,
                 result: CPUSet, left: CPUSet)
    returns (pools': map<string, PoolView>, cs': map<string, Container>)
    requires ValidEnv(e) && id in cs && cs[id].cpus != {} && Exclusable(cs[id].pool) && cs[id].pool in pools
    requires AllocSpec.Outcome(e.m.topo, e.allocOffline, pools[cs[id].pool].shared, |cs[id].cpus|, result, left, true)
    ensures AllocationStep(e, pools, cs, id, pools', cs')
    ensures pools'.Keys == pools.Keys && cs'.Keys == cs.Keys && OnlyOne(cs, id, cs')
    ensures pools'[cs[id].pool].shared == left && cs'[id].cpus == result
    ensures forall q :: q in pools && q != cs[id].pool ==> pools'[q] == pools[q]
  {
    var s := During(pools, cs);
    var s' := WithCpus(s, id, cs[id].pool, result, left);
    pools', cs' := s'.pools, s'.containers;
    hide AllocSpec.Outcome, ValidEnv, Measure;
    assert TookCpus(e, s, id, cs[id].pool, |cs[id].cpus|, s', true, result);
    assert AllocatedAgain(e, s, id, s', true, result);
  }

  /** The next request served, on the way to a container getting a CPU. */
  lemma NextServed(t: Topology, offline: CPUSet, from: CPUSet, demands: map<string, int>, a: string, c: int)
    returns (b: string, result: CPUSet, left: CPUSet)
    requires NoDeadCore(t, offline) && CanGet(t, offline, from, demands, a, c)
    ensures b in demands && AllocSpec.Outcome(t, offline, from, demands[b], result, left, true)
    ensures if b == a then c in result else CanGet(t, offline, left, demands - {b}, a, c)
  {
    hide AllocSpec.Outcome;
    b, result, left :| && b in demands && AllocSpec.Outcome(t, offline, from, demands[b], result, left, true)
      && if b == a then c in result else CanGet(t, offline, left, demands - {b}, a, c);
  }

  /** From any moment of a reallocation at which a container can still get a CPU, there is a way to go on in which it
      does. */
  lemma {:induction false} ReachedGiving(e: Env, pools0: map<string, PoolView>, cs0: map<string, Container>,
                                         order: seq<string>, pools: map<string, PoolView>, cs: map<string, Container>,
                                         a: string, c: int)
    returns (order': seq<string>, pools': map<string, PoolView>, cs': map<string, Container>)
    requires ValidEnv(e) && ContainersOk(cs0, pools0.Keys) && Distinct(order) && Members(order) <= cs0.Keys
    requires Reached(e, ResetSoFar(pools0, pools0.Keys), cs0, order, pools, cs)
    requires pools.Keys == pools0.Keys && cs.Keys == cs0.Keys && Untaken(cs0, Members(order), cs)
    requires a in cs0 && cs0[a].pool in pools
    requires
      var p := cs0[a].pool;
      CanGet(e.m.topo, e.allocOffline, pools[p].shared, Demands(cs0, p) - Members(order), a, c)
    ensures ReallocatesIn(e, pools0, cs0, order', pools', cs')
    ensures pools'.Keys == pools0.Keys && cs'.Keys == cs0.Keys && a in cs' && c in cs'[a].cpus
    decreases |cs0.Keys - Members(order)|
  {
    hide *;
    var p, taken := cs0[a].pool, Members(order);
    EnvDead(e);
    var b, result, left := NextServed(e.m.topo, e.allocOffline, pools[p].shared, Demands(cs0, p) - taken, a, c);
    DemandReady(cs0, pools0.Keys, p, taken, cs, b);
    pools', cs' := TurnWith(e, pools, cs, b, result, left);
    ReachedMore(e, ResetSoFar(pools0, pools0.Keys), cs0, order, pools, cs, b, pools', cs');
    OrderMore(order, b);
    var next := order + [b];
    if b == a {
      var last := cs';
      assert a in Members(next);
      order', pools', cs' := TurnsExist(e, pools0, cs0, next, pools', cs');
      assert cs'[a] == last[a];
    } else {
      assert cs0.Keys - Members(next) == cs0.Keys - taken - {b};
      assert Demands(cs0, p) - Members(next) == Demands(cs0, p) - taken - {b};
      StillUntaken(cs0, taken, cs, b, cs');
      order', pools', cs' := ReachedGiving(e, pools0, cs0, next, pools', cs', a, c);
    }
  }

  lemma EnvDead(e: Env)
    requires ValidEnv(e)
    ensures ValidTopology(e.m.topo) && NoDeadCore(e.m.topo, e.allocOffline)
  {
  }

  lemma DemandReady(cs0: map<string, Container>, pools: set<string>, p: string, taken: set<string>,
                    cs: map<string, Container>, b: string)
    requires ContainersOk(cs0, pools) && Untaken(cs0, taken, cs) && b in Demands(cs0, p) - taken
    ensures b in cs0 && b !in taken && b in cs && cs[b] == cs0[b] && cs[b].cpus != {} && cs[b].pool == p
    ensures Exclusable(p) && p in pools && (Demands(cs0, p) - taken)[b] == |cs[b].cpus|
  {
  }

  /** Each CPU that a container can get it gets in some reallocation. */
  lemma ReallocatesGiving(e: Env, pools: map<string, PoolView>, cs: map<string, Container>, a: string, c: int)
    returns (pools': map<string, PoolView>, cs': map<string, Container>)
    requires ValidEnv(e) && ContainersOk(cs, pools.Keys) && a in cs && cs[a].pool in pools
    requires
      var p := cs[a].pool;
      c in Attainable(e.m.topo, e.allocOffline, Footprint(pools[p]), Demands(cs, p), a)
    ensures Reallocates(e, pools, cs, pools', cs') && pools'.Keys == pools.Keys && cs'.Keys == cs.Keys
    ensures a in cs' && c in cs'[a].cpus
  {
    hide *;
    ReachedStart(e, pools, cs);
    GivingStart(e, pools, cs, a, c);
    var order;
    order, pools', cs' := ReachedGiving(e, pools, cs, [], ResetSoFar(pools, pools.Keys), cs, a, c);
    ReallocatesOne(e, pools, cs, order, pools', cs');
  }

  lemma GivingStart(e: Env, pools: map<string, PoolView>, cs: map<string, Container>, a: string, c: int)
    requires ValidEnv(e) && a in cs && cs[a].pool in pools
    requires
      var p := cs[a].pool;
      c in Attainable(e.m.topo, e.allocOffline, Footprint(pools[p]), Demands(cs, p), a)
    ensures
      var p, reset := cs[a].pool, ResetSoFar(pools, pools.Keys);
      && p in reset && Untaken(cs, Members([]), cs)
      && CanGet(e.m.topo, e.allocOffline, reset[p].shared, Demands(cs, p) - Members([]), a, c)
  {
    hide CanGet, ValidEnv;
    var demands := Demands(cs, cs[a].pool);
    assert demands - Members([]) == demands;
  }

  // Keeping containers off given CPUs

  /** The containers with exclusive CPUs. */
  ghost function Exclusives(cs: map<string, Container>): set<string> {
    set id | id in cs && cs[id].cpus != {}
  }

  lemma ExclusiveDemands(cs: map<string, Container>, p: string)
    ensures Demands(cs, p).Keys <= Exclusives(cs) <= cs.Keys
  {
  }

  /** If the containers that had their turns kept off their CPUs, and the others still can, all could at first. */
  ghost predicate Avoided(e: Env, from: CPUSet, demands: map<string, int>, avoid: map<string, CPUSet>, p: string,
                          taken: set<string>, pools: map<string, PoolView>, cs: map<string, Container>)
    requires ValidEnv(e)
  {
    && p in pools && demands.Keys <= cs.Keys
    && (KeepOff(demands.Keys * taken, cs, avoid) &&
        CanAvoid(e.m.topo, e.allocOffline, pools[p].shared, demands - taken, avoid) ==>
          CanAvoid(e.m.topo, e.allocOffline, from, demands, avoid))
  }

  /** The exclusive CPUs of the given containers are none of those that each of them is to avoid. */
  ghost predicate KeepOff(ids: set<string>, cs: map<string, Container>, avoid: map<string, CPUSet>) {
    forall a :: a in ids && a in cs && a in avoid ==> cs[a].cpus !! avoid[a]
  }

  lemma AvoidedTurn(e: Env, from: CPUSet, demands: map<string, int>, avoid: map<string, CPUSet>, p: string,
                    taken: set<string>, pools: map<string, PoolView>, cs: map<string, Container>, id: string,
                    pools': map<string, PoolView>, cs': map<string, Container>)
    requires ValidEnv(e) && Avoided(e, from, demands, avoid, p, taken, pools, cs)
    requires AllocationStep(e, pools, cs, id, pools', cs') && id !in taken
    requires id in cs && (cs[id].cpus != {} ==> Exclusable(cs[id].pool) && cs[id].pool in pools)
    requires id in demands <==> HasExclusive(cs[id], p)
    requires id in demands ==> demands[id] == |cs[id].cpus|
    ensures Avoided(e, from, demands, avoid, p, taken + {id}, pools', cs')
  {
    assert p in pools && demands.Keys <= cs.Keys && (id in demands ==> cs[id].cpus != {} && cs[id].pool == p);
    hide AllocSpec.Outcome, AllocationStep, Avoided, CanAvoid, KeepOff;
    if cs[id].cpus == {} {
      hide *;
      var s, s', result := TurnIs(e, pools, cs, id, pools', cs');
      AvoidedSame(e, from, demands, avoid, p, taken, pools, cs, id, pools, cs);
    } else {
      var result, left := TurnOutcome(e, pools, cs, id, pools', cs');
      if cs[id].pool == p {
        AvoidedNext(e, from, demands, avoid, p, taken, pools, cs, id, result, left);
      } else {
        AvoidedSame(e, from, demands, avoid, p, taken, pools, cs, id, pools', cs');
      }
    }
  }

  lemma AvoidedSame(e: Env, from: CPUSet, demands: map<string, int>, avoid: map<string, CPUSet>, p: string,
                    taken: set<string>, pools: map<string, PoolView>, cs: map<string, Container>, id: string,
                    pools': map<string, PoolView>, cs': map<string, Container>)
    requires ValidEnv(e) && Avoided(e, from, demands, avoid, p, taken, pools, cs)
    requires id !in demands && p in pools && demands.Keys <= cs.Keys
    requires p in pools' && pools'[p] == pools[p] && demands.Keys <= cs'.Keys
    requires forall a :: a in demands ==> cs'[a] == cs[a]
    ensures Avoided(e, from, demands, avoid, p, taken + {id}, pools', cs')
  {
    hide CanAvoid;
    assert demands - (taken + {id}) == demands - taken;
  }

  lemma AvoidedNext(e: Env, from: CPUSet, demands: map<string, int>, avoid: map<string, CPUSet>, p: string,
                    taken: set<string>, pools: map<string, PoolView>, cs: map<string, Container>, id: string,
                    result: CPUSet, left: CPUSet)
    requires ValidEnv(e) && Avoided(e, from, demands, avoid, p, taken, pools, cs)
    requires id in demands && id !in taken && p in pools && demands.Keys <= cs.Keys
    requires AllocSpec.Outcome(e.m.topo, e.allocOffline, pools[p].shared, demands[id], result, left, true)
    ensures Avoided(e, from, demands, avoid, p, taken + {id},
                    pools[p := pools[p].(shared := left, pinned := pools[p].pinned + result)],
                    cs[id := Container(id, p, result, 1000 * |result|)])
  {
    var t, offline, rest := e.m.topo, e.allocOffline, demands - taken;
    var cs' := cs[id := Container(id, p, result, 1000 * |result|)];
    assert demands - (taken + {id}) == rest - {id} && id in rest && rest[id] == demands[id];
    hide AllocSpec.Outcome, ValidTopology, NoDeadCore;
    if KeepOff(demands.Keys * (taken + {id}), cs', avoid) && CanAvoid(t, offline, left, rest - {id}, avoid) {
      assert cs'[id].cpus == result && id in demands.Keys * (taken + {id});
      ServedNext(t, offline, pools[p].shared, rest, avoid, id, result, left);
      hide CanAvoid;
      forall a | a in demands.Keys * taken && a in cs && a in avoid ensures cs[a].cpus !! avoid[a] {
        assert cs'[a] == cs[a];
      }
    }
  }

  lemma ServedNext(t: Topology, offline: CPUSet, from: CPUSet, demands: map<string, int>, avoid: map<string, CPUSet>,
                   b: string, result: CPUSet, left: CPUSet)
    requires NoDeadCore(t, offline) && b in demands
    requires AllocSpec.Outcome(t, offline, from, demands[b], result, left, true)
    requires (b in avoid ==> result !! avoid[b]) && CanAvoid(t, offline, left, demands - {b}, avoid)
    ensures CanAvoid(t, offline, from, demands, avoid)
  {
    hide AllocSpec.Outcome, NoDeadCore;
  }

  lemma AvoidedStart(e: Env, pools: map<string, PoolView>, cs: map<string, Container>, avoid: map<string, CPUSet>,
                     p: string)
    requires ValidEnv(e) && p in pools
    ensures Avoided(e, Footprint(pools[p]), Demands(cs, p), avoid, p, {}, ResetSoFar(pools, pools.Keys), cs)
  {
    hide CanAvoid;
    var demands := Demands(cs, p);
    assert demands - {} == demands;
  }

  lemma {:induction false} ReachedAvoided(e: Env, pools0: map<string, PoolView>, cs0: map<string, Container>,
                                          order: seq<string>, pools: map<string, PoolView>,
                                          cs: map<string, Container>, avoid: map<string, CPUSet>, p: string)
    requires ValidEnv(e) && CoversAll(e, pools0, cs0) && Distinct(order) && Members(order) <= cs0.Keys
    requires Reached(e, ResetSoFar(pools0, pools0.Keys), cs0, order, pools, cs)
    requires p in pools0
    ensures Avoided(e, Footprint(pools0[p]), Demands(cs0, p), avoid, p, Members(order), pools, cs)
    decreases |order|
  {
    if order == [] {
      hide CoversAll, Avoided, ResetSoFar, ValidEnv;
      AvoidedStart(e, pools0, cs0, avoid, p);
      assert Members([]) == {};
    } else {
      hide *;
      var last, before := order[|order| - 1], order[..|order| - 1];
      MembersSnoc(order);
      var ps, c := LastTurn(e, ResetSoFar(pools0, pools0.Keys), cs0, order, pools, cs);
      ReachedAvoided(e, pools0, cs0, before, ps, c, avoid, p);
      ReachedHolding(e, pools0, cs0, before, ps, c);
      TurnReady(e, pools0, cs0, Members(before), ps, c, last);
      DemandOf(cs0, p, last);
      ExclusiveDemands(cs0, p);
      AvoidedTurn(e, Footprint(pools0[p]), Demands(cs0, p), avoid, p, Members(before), ps, c, last, pools, cs);
    }
  }

  /** If all containers with exclusive CPUs keep off their CPUs, each pool allows for that. */
  lemma ReallocatesAvoids(e: Env, pools: map<string, PoolView>, cs: map<string, Container>,
                          pools': map<string, PoolView>, cs': map<string, Container>, avoid: map<string, CPUSet>,
                          p: string)
    requires ValidEnv(e) && CanReallocate(e, pools, cs) && Reallocates(e, pools, cs, pools', cs')
    requires KeepOff(Exclusives(cs), cs', avoid) && p in pools
    ensures CanAvoid(e.m.topo, e.allocOffline, Footprint(pools[p]), Demands(cs, p), avoid)
  {
    var order :| ReallocatesIn(e, pools, cs, order, pools', cs');
    hide Reached, CanReallocate, ValidEnv, Distinct, Members, AllocationFails, CanAvoid, CoversAll, Avoided;
    AllHaveTurns(e, pools, cs, order, pools', cs');
    CanCovers(e, pools, cs);
    ReachedAvoided(e, pools, cs, order, pools', cs', avoid, p);
    ExclusiveDemands(cs, p);
    AvoidedEnd(e, Footprint(pools[p]), Demands(cs, p), avoid, p, Members(order), pools', cs');
  }

  lemma AvoidedEnd(e: Env, from: CPUSet, demands: map<string, int>, avoid: map<string, CPUSet>, p: string,
                   taken: set<string>, pools: map<string, PoolView>, cs: map<string, Container>)
    requires ValidEnv(e) && Avoided(e, from, demands, avoid, p, taken, pools, cs)
    requires demands.Keys <= taken && KeepOff(demands.Keys, cs, avoid)
    ensures CanAvoid(e.m.topo, e.allocOffline, from, demands, avoid)
  {
    assert demands - taken == map[];
    assert CanAvoid(e.m.topo, e.allocOffline, pools[p].shared, map[], avoid);
  }

  /** In each pool the containers that had no turns yet can keep off their CPUs. */
  ghost predicate AllCanAvoid(e: Env, cs0: map<string, Container>, taken: set<string>, pools: map<string, PoolView>,
                              avoid: map<string, CPUSet>)
    requires ValidEnv(e)
  {
    forall p :: p in pools ==>
      CanAvoid(e.m.topo, e.allocOffline, pools[p].shared, Demands(cs0, p) - taken, avoid)
  }

  /** A container whose turn comes next, and what it then gets. */
  lemma NextKeptOff(e: Env, cs0: map<string, Container>, taken: set<string>, pools: map<string, PoolView>,
                    avoid: map<string, CPUSet>)
    returns (b: string, result: CPUSet, left: CPUSet)
    requires ValidEnv(e) && AllCanAvoid(e, cs0, taken, pools, avoid) && !(Exclusives(cs0) <= taken)
    requires ContainersOk(cs0, pools.Keys)
    ensures b in Exclusives(cs0) && b !in taken && b in cs0 && cs0[b].pool in pools
    ensures b in avoid ==> result !! avoid[b]
    ensures
      var p := cs0[b].pool;
      && AllocSpec.Outcome(e.m.topo, e.allocOffline, pools[p].shared, |cs0[b].cpus|, result, left, true)
      && CanAvoid(e.m.topo, e.allocOffline, left, Demands(cs0, p) - taken - {b}, avoid)
  {
    var a :| a in Exclusives(cs0) && a !in taken;
    var p := cs0[a].pool;
    var demands := Demands(cs0, p) - taken;
    assert a in demands && CanAvoid(e.m.topo, e.allocOffline, pools[p].shared, demands, avoid);
    hide AllocSpec.Outcome, ValidTopology, NoDeadCore, ContainersOk;
    b, result, left :|
      && b in demands && AllocSpec.Outcome(e.m.topo, e.allocOffline, pools[p].shared, demands[b], result, left, true)
      && (b in avoid ==> result !! avoid[b])
      && CanAvoid(e.m.topo, e.allocOffline, left, demands - {b}, avoid);
  }

  lemma NextReady(cs0: map<string, Container>, pools: set<string>, taken: set<string>, cs: map<string, Container>,
                  b: string)
    requires ContainersOk(cs0, pools) && Untaken(cs0, taken, cs) && b in Exclusives(cs0) && b !in taken
    ensures b in cs && cs[b] == cs0[b] && cs[b].cpus != {} && Exclusable(cs[b].pool) && cs[b].pool in pools
  {
  }

  lemma AllCanStillAvoid(e: Env, cs0: map<string, Container>, taken: set<string>, pools: map<string, PoolView>,
                         avoid: map<string, CPUSet>, b: string, left: CPUSet, pools': map<string, PoolView>)
    requires ValidEnv(e) && AllCanAvoid(e, cs0, taken, pools, avoid) && b in cs0 && cs0[b].pool in pools
    requires CanAvoid(e.m.topo, e.allocOffline, left, Demands(cs0, cs0[b].pool) - taken - {b}, avoid)
    requires pools'.Keys == pools.Keys && pools'[cs0[b].pool].shared == left
    requires forall q :: q in pools && q != cs0[b].pool ==> pools'[q] == pools[q]
    ensures AllCanAvoid(e, cs0, taken + {b}, pools', avoid)
  {
    hide CanAvoid;
    forall q | q in pools'
      ensures CanAvoid(e.m.topo, e.allocOffline, pools'[q].shared, Demands(cs0, q) - (taken + {b}), avoid)
    {
      assert Demands(cs0, q) - (taken + {b}) == Demands(cs0, q) - taken - {b};
      if q != cs0[b].pool {
        assert Demands(cs0, q) - taken - {b} == Demands(cs0, q) - taken;
      }
    }
  }

  lemma KeepOffMore(ids: set<string>, taken: set<string>, cs: map<string, Container>, b: string,
                    cs': map<string, Container>, avoid: map<string, CPUSet>)
    requires KeepOff(ids * taken, cs, avoid) && OnlyOne(cs, b, cs') && cs'.Keys == cs.Keys
    requires b in cs' && (b in avoid ==> cs'[b].cpus !! avoid[b])
    ensures KeepOff(ids * (taken + {b}), cs', avoid)
  {
  }

  lemma StillKeepOff(ids: set<string>, taken: set<string>, cs: map<string, Container>, cs': map<string, Container>,
                     avoid: map<string, CPUSet>)
    requires KeepOff(ids * taken, cs, avoid) && ids <= taken && cs'.Keys == cs.Keys
    requires forall a :: a in taken && a in cs ==> cs'[a] == cs[a]
    ensures KeepOff(ids, cs', avoid)
  {
  }

  /** From any moment of a reallocation at which all containers can still keep off their CPUs, there is a way to go on
      in which they do. */
  lemma {:induction false} ReachedAvoiding(e: Env, pools0: map<string, PoolView>, cs0: map<string, Container>,
                                           order: seq<string>, pools: map<string, PoolView>,
                                           cs: map<string, Container>, avoid: map<string, CPUSet>)
    returns (order': seq<string>, pools': map<string, PoolView>, cs': map<string, Container>)
    requires ValidEnv(e) && ContainersOk(cs0, pools0.Keys) && Distinct(order) && Members(order) <= cs0.Keys
    requires Reached(e, ResetSoFar(pools0, pools0.Keys), cs0, order, pools, cs)
    requires pools.Keys == pools0.Keys && cs.Keys == cs0.Keys && Untaken(cs0, Members(order), cs)
    requires KeepOff(Exclusives(cs0) * Members(order), cs, avoid)
    requires AllCanAvoid(e, cs0, Members(order), pools, avoid)
    ensures ReallocatesIn(e, pools0, cs0, order', pools', cs')
    ensures pools'.Keys == pools0.Keys && cs'.Keys == cs0.Keys && KeepOff(Exclusives(cs0), cs', avoid)
    decreases |cs0.Keys - Members(order)|
  {
    hide *;
    var taken := Members(order);
    if Exclusives(cs0) <= taken {
      order', pools', cs' := TurnsExist(e, pools0, cs0, order, pools, cs);
      StillKeepOff(Exclusives(cs0), taken, cs, cs', avoid);
    } else {
      EnvDead(e);
      var b, result, left := NextKeptOff(e, cs0, taken, pools, avoid);
      NextReady(cs0, pools0.Keys, taken, cs, b);
      pools', cs' := TurnWith(e, pools, cs, b, result, left);
      ReachedMore(e, ResetSoFar(pools0, pools0.Keys), cs0, order, pools, cs, b, pools', cs');
      OrderMore(order, b);
      var next := order + [b];
      assert cs0.Keys - Members(next) == cs0.Keys - taken - {b};
      StillUntaken(cs0, taken, cs, b, cs');
      KeepOffMore(Exclusives(cs0), taken, cs, b, cs', avoid);
      AllCanStillAvoid(e, cs0, taken, pools, avoid, b, left, pools');
      order', pools', cs' := ReachedAvoiding(e, pools0, cs0, next, pools', cs', avoid);
    }
  }

  /** If each pool allows its containers to keep off their CPUs, they all do in some reallocation. */
  lemma ReallocatesAvoiding(e: Env, pools: map<string, PoolView>, cs: map<string, Container>,
                            avoid: map<string, CPUSet>)
    returns (pools': map<string, PoolView>, cs': map<string, Container>)
    requires ValidEnv(e) && ContainersOk(cs, pools.Keys)
    requires forall p :: p in pools ==>
        CanAvoid(e.m.topo, e.allocOffline, Footprint(pools[p]), Demands(cs, p), avoid)
    ensures Reallocates(e, pools, cs, pools', cs') && pools'.Keys == pools.Keys && cs'.Keys == cs.Keys
    ensures KeepOff(Exclusives(cs), cs', avoid)
  {
    AvoidingStart(e, pools, cs, avoid);
    hide *;
    ReachedStart(e, pools, cs);
    var order;
    order, pools', cs' := ReachedAvoiding(e, pools, cs, [], ResetSoFar(pools, pools.Keys), cs, avoid);
    ReallocatesOne(e, pools, cs, order, pools', cs');
  }

  lemma AvoidingStart(e: Env, pools: map<string, PoolView>, cs: map<string, Container>, avoid: map<string, CPUSet>)
    requires ValidEnv(e)
    requires forall p :: p in pools ==>
        CanAvoid(e.m.topo, e.allocOffline, Footprint(pools[p]), Demands(cs, p), avoid)
    ensures AllCanAvoid(e, cs, Members([]), ResetSoFar(pools, pools.Keys), avoid) && Untaken(cs, Members([]), cs)
    ensures KeepOff(Exclusives(cs) * Members([]), cs, avoid)
  {
    hide CanAvoid;
    forall p | p in pools ensures Demands(cs, p) - Members([]) == Demands(cs, p) { }
  }
}
