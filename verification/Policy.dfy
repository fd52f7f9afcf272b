/** The pool policy as the CPU manager sees it: containers are added and removed, configurations picked up,
    and what changed is published in the manager's state. */
module Policy {
  import opened CpuSets
  import opened NodeConfigs
  import opened Preparation
  import opened PoolState
  import opened Reconciliation
  import opened Pools
  import opened Runs
  import opened Promises

  /** The keys whose entries differ. */
  ghost function Changed<V>(a: map<string, V>, b: map<string, V>): set<string> {
    set k | k in a.Keys + b.Keys && !(k in a && k in b && a[k] == b[k])
  }

  /** The part of the CPU manager's state that policies write; what was changed is marked for the manager to pick up. */
  class ManagerState {
    var assignments: map<string, CPUSet>
    var defaultCpus: CPUSet
    var resources: map<string, int>
    var updatedContainers: set<string>
    var updatedResources: set<string>

    function View(): Published
      reads this
    {
      Published(assignments, defaultCpus, resources)
    }

    method GetCPUSet(id: string) returns (cset: CPUSet, found: bool)
      ensures found <==> id in assignments
      ensures found ==> cset == assignments[id]
    {
      if id in assignments {
        return assignments[id], true;
      }
      return {}, false;
    }

    method SetCPUSet(id: string, cset: CPUSet)
      modifies this`assignments, this`updatedContainers
      ensures View() == old(View()).(assignments := old(assignments)[id := cset])
      ensures updatedContainers == old(updatedContainers) + Changed(old(assignments), assignments)
    {
      if id in assignments && assignments[id] == cset {
        assert assignments == assignments[id := cset];
        return;
      }
      assignments := assignments[id := cset];
      updatedContainers := updatedContainers + {id};
    }

    method Delete(id: string)
      modifies this`assignments, this`updatedContainers
      ensures View() == old(View()).(assignments := old(assignments) - {id})
      ensures updatedContainers == old(updatedContainers) + Changed(old(assignments), assignments)
    {
      if id !in assignments {
        assert assignments == assignments - {id};
        return;
      }
      assignments := assignments - {id};
      updatedContainers := updatedContainers + {id};
    }

    method UpdateResource(name: string, qty: int)
      modifies this`resources, this`updatedResources
      ensures View() == old(View()).(capacity := old(resources)[name := qty])
      ensures updatedResources == old(updatedResources) + Changed(old(resources), resources)
    {
      if name in resources && resources[name] == qty {
        assert resources == resources[name := qty];
        return;
      }
      resources := resources[name := qty];
      updatedResources := updatedResources + {name};
    }

    method SetDefaultCPUSet(cset: CPUSet)
      modifies this`defaultCpus
      ensures View() == old(View()).(defaultCpus := cset)
    {
      defaultCpus := cset;
    }
  }

  class PoolPolicy {
    const pools: PoolSet
    const numReservedCpus: int

    constructor (pools: PoolSet, numReservedCpus: int)
      ensures this.pools == pools && this.numReservedCpus == numReservedCpus
    {
      this.pools := pools;
      this.numReservedCpus := numReservedCpus;
    }

    /** updateState: containers, capacities and default CPUs are published on top of what was, and exactly what
        that changes is marked. */
    method UpdateState(s: ManagerState)
      requires RESERVED in pools.pools && DEFAULT in pools.pools
      modifies s
      ensures pools.Abs() == old(pools.Abs())
      ensures s.View() == Publish(old(s.View()), pools.Abs())
      ensures RESERVED in pools.Abs().pools && DEFAULT in pools.Abs().pools && Tells(s.View(), pools.Abs())
      ensures TellsNobodyElse(old(s.View()), pools.Abs(), s.View())
      ensures s.updatedContainers == old(s.updatedContainers) + Changed(old(s.View()).assignments, s.View().assignments)
      ensures s.updatedResources == old(s.updatedResources) + Changed(old(s.View()).capacity, s.View().capacity)
    {
      hide *;
      ghost var before, state := s.View(), pools.Abs();
      pools.AbsIs();
      var assignments := pools.GetPoolAssignments(false);
      PublishAssignments(s, assignments);
      var capacity := pools.GetPoolCapacity();
      PublishCapacity(s, capacity);
      var cpus, ok := pools.GetPoolCPUSet(DEFAULT);
      PublishDefault(s, cpus);
      PublishIs(before, state, s.View());
      PublishTells(before, state);
    }

    method PublishDefault(s: ManagerState, cpus: CPUSet)
      modifies s`defaultCpus
      ensures pools.Abs() == old(pools.Abs())
      ensures s.View() == old(s.View()).(defaultCpus := cpus)
    {
      s.SetDefaultCPUSet(cpus);
    }

    method PublishAssignments(s: ManagerState, assignments: map<string, CPUSet>)
      modifies s`assignments, s`updatedContainers
      ensures pools.Abs() == old(pools.Abs())
      ensures s.View() == old(s.View()).(assignments := old(s.View()).assignments + assignments)
      ensures s.updatedContainers == old(s.updatedContainers) + Changed(old(s.View()).assignments, s.View().assignments)
    {
      var remaining := assignments.Keys;
      ghost var before, marks := s.View(), s.updatedContainers;
      NothingChanged(before.assignments, assignments);
      while remaining != {}
        invariant remaining <= assignments.Keys && pools.Abs() == old(pools.Abs())
        invariant s.View() == before.(assignments := before.assignments + (assignments - remaining))
        invariant s.updatedContainers == marks + Changed(before.assignments, s.View().assignments)
      {
        hide Changed, PoolSet.Abs;
        var id :| id in remaining;
        s.SetCPUSet(id, assignments[id]);
        AddOne(before.assignments, assignments, remaining, id);
        remaining := remaining - {id};
      }
      assert assignments - {} == assignments;
    }

    method PublishCapacity(s: ManagerState, capacity: map<string, int>)
      modifies s`resources, s`updatedResources
      ensures pools.Abs() == old(pools.Abs())
      ensures s.View() == old(s.View()).(capacity := old(s.View()).capacity + capacity)
      ensures s.updatedResources == old(s.updatedResources) + Changed(old(s.View()).capacity, s.View().capacity)
    {
      var remaining := capacity.Keys;
      ghost var before, marks := s.View(), s.updatedResources;
      NothingChanged(before.capacity, capacity);
      while remaining != {}
        invariant remaining <= capacity.Keys && pools.Abs() == old(pools.Abs())
        invariant s.View() == before.(capacity := before.capacity + (capacity - remaining))
        invariant s.updatedResources == marks + Changed(before.capacity, s.View().capacity)
      {
        hide Changed, PoolSet.Abs;
        var pool :| pool in remaining;
        s.UpdateResource(pool, capacity[pool]);
        AddOne(before.capacity, capacity, remaining, pool);
        remaining := remaining - {pool};
      }
      assert capacity - {} == capacity;
    }

    /** The pool set and what the CPU manager was told of it. */
    ghost function Now(s: ManagerState): World
      reads pools, pools.Objects(), pools.metrics, pools.sys.kernel, s
    {
      World(pools.Abs(), s.View())
    }

    lemma NowIs(s: ManagerState)
      ensures Now(s) == World(pools.Abs(), s.View())
      ensures pools.Abs().pools.Keys == pools.pools.Keys && pools.Abs().containers == pools.containers
    {
    }

    /** AddContainer */
    method AddContainer(s: ManagerState, id: string, pool: string, req: int, lim: int) returns (ok: bool)
      requires pools.Unaliased() && pools.Surroundings() && Serviceable(pools.Abs())
      modifies pools`containers, pools.Objects(), pools.metrics, pools.lookups, s
      ensures pools.Unaliased() && pools.Surroundings() && ValidEnv(old(pools.Environment()))
      ensures Added(old(pools.Environment()), old(Now(s)), id, pool, req, lim, Now(s))
    {
      hide *;
      ghost var env, before := pools.Environment(), Now(s);
      pools.EnvironmentIs();
      NowIs(s);
      ServiceableHas(pools.Abs());
      var cset, found := pools.GetContainerCPUSet(id);
      if found {
        NowIs(s);
        AlreadyAdded(env, before, id, pool, req, lim);
        return true;
      }
      if req != 0 {
        if req == lim && req % 1000 == 0 {
          cset, ok := pools.AllocateCPUs(id, pool, req / 1000);
          NowIs(s);
          TookExclusive(env, before.s, id, pool, req, lim, pools.Abs(), ok, cset);
        } else {
          cset, ok := pools.AllocateCPU(id, pool, req);
          TookShared(env, before.s, id, pool, req, lim, pools.Abs(), ok, cset);
        }
      } else {
        cset, ok := pools.AllocateCPU(id, pool, req);
        TookShared(env, before.s, id, pool, req, lim, pools.Abs(), ok, cset);
      }
      NowIs(s);
      if !ok {
        Refused(env, before, id, pool, req, lim, Now(s));
        return;
      }
      UpdateState(s);
      NowIs(s);
      IsAdded(env, before, id, pool, req, lim, Now(s));
    }
  
    method Forget(s: ManagerState, id: string)
      modifies s
      ensures pools.Abs() == old(pools.Abs()) && pools.Objects() == old(pools.Objects())
      ensures s.View() == old(s.View()).(assignments := old(s.View()).assignments - {id})
    {
      s.Delete(id);
    }

    /** The container is released and forgotten; what the release led to is still to be published. */
    method Release(s: ManagerState, id: string) returns (ghost ok: bool, ghost order: seq<string>)
      requires pools.Unaliased() && pools.Surroundings() && Serviceable(pools.Abs())
      requires pools.pendingCfg.Some? ==> Ready(pools.pendingCfg.value)
      modifies pools, pools.Objects(), pools.metrics, pools.lookups, pools.sys`cpus, pools.sys`offline
      modifies pools.sys.kernel, s
      ensures pools.Unaliased() && pools.Surroundings() && pools.Environment() == old(pools.Environment())
      ensures forall o :: o in pools.Objects() ==> o in old(pools.Objects()) || fresh(o)
      ensures ValidEnv(old(pools.Environment()))
      ensures ReleasedTo(old(pools.Environment()), old(pools.Abs()), id, order, pools.Abs(), ok)
      ensures s.View() == old(s.View()).(assignments := old(s.View()).assignments - {id})
    {
      hide *;
      pools.EnvironmentIs();
      ServiceableHas(pools.Abs());
      pools.HaveCpusIs();
      pools.AbsIs();
      ok, order := pools.ReleaseCPU(id);
      Forget(s, id);
    }

    /** RemoveContainer */
    method RemoveContainer(s: ManagerState, id: string)
      requires pools.Unaliased() && pools.Surroundings() && Serviceable(pools.Abs())
      requires pools.pendingCfg.Some? ==> Ready(pools.pendingCfg.value)
      modifies pools, pools.Objects(), pools.metrics, pools.lookups, pools.sys`cpus, pools.sys`offline
      modifies pools.sys.kernel, s
      ensures pools.Unaliased() && pools.Surroundings() && pools.Environment() == old(pools.Environment())
      ensures forall o :: o in pools.Objects() ==> o in old(pools.Objects()) || fresh(o)
      ensures ValidEnv(old(pools.Environment()))
      ensures Removed(old(pools.Environment()), old(Now(s)), id, Now(s))
    {
      hide *;
      ghost var env, before := pools.Environment(), Now(s);
      NowIs(s);
      ghost var ok, order := Release(s, id);
      NowIs(s);
      ReleasedHas(env, before.s, id, order, pools.Abs(), ok);
      UpdateState(s);
      NowIs(s);
      IsRemoved(env, before, id, order, ok, Now(s));
    }

    /** configure: a file with an unacceptable entry changes nothing; any other is tried. Nothing is published. */
    method Configure(s: ManagerState, file: map<string, FileEntry>) returns (ok: bool)
      requires pools.Unaliased() && pools.Surroundings() && ConfigsHaveCpus(pools.Abs().pools)
      requires (forall p :: p in file ==> AcceptableEntry(p, file[p], pools.isolated)) ==>
          ReservedIsConcrete(file, numReservedCpus)
      modifies pools, pools.Objects(), pools.metrics, pools.lookups, pools.sys`cpus, pools.sys`offline, pools.sys.kernel
      ensures pools.Unaliased() && pools.Surroundings() && pools.Environment() == old(pools.Environment())
      ensures forall o :: o in pools.Objects() ==> o in old(pools.Objects()) || fresh(o)
      ensures ValidEnv(old(pools.Environment()))
      ensures if forall p :: p in file ==> AcceptableEntry(p, file[p], pools.isolated)
              then Tried(old(pools.Environment()), old(Now(s)), Parsed(file, numReservedCpus), Now(s))
              else !ok && Now(s) == old(Now(s))
    {
      hide *;
      ghost var env, before := pools.Environment(), Now(s);
      pools.EnvironmentIs();
      NowIs(s);
      pools.AbsIs();
      var cfg;
      cfg, ok := Parse(s, file);
      if !ok {
        return;
      }
      ParsedIsReady(file, numReservedCpus, pools.isolated);
      pools.AbsIs();
      pools.HaveCpusIs();
      ok := Apply(s, cfg);
    }

    method Parse(s: ManagerState, file: map<string, FileEntry>) returns (cfg: NodeConfig, ok: bool)
      ensures Now(s) == old(Now(s)) && pools.Abs() == old(pools.Abs()) && pools.Objects() == old(pools.Objects())
      ensures ok <==> forall p :: p in file ==> AcceptableEntry(p, file[p], pools.isolated)
      ensures ok ==> cfg == Parsed(file, numReservedCpus)
    {
      hide AcceptableEntry, Parsed;
      cfg, ok := ParseRequiringExplicitCpus(file, numReservedCpus, pools.isolated);
    }

    method Apply(s: ManagerState, cfg: NodeConfig) returns (ok: bool)
      requires pools.Unaliased() && pools.Surroundings() && pools.HaveCpus() && Ready(cfg)
      modifies pools, pools.Objects(), pools.metrics, pools.lookups, pools.sys`cpus, pools.sys`offline, pools.sys.kernel
      ensures pools.Unaliased() && pools.Surroundings() && pools.Environment() == old(pools.Environment())
      ensures forall o :: o in pools.Objects() ==> o in old(pools.Objects()) || fresh(o)
      ensures ValidEnv(old(pools.Environment()))
      ensures Tried(old(pools.Environment()), old(Now(s)), cfg, Now(s))
    {
      hide *;
      ghost var env, before := pools.Environment(), Now(s);
      NowIs(s);
      ghost var order;
      ok, order := pools.Reconfigure(Some(cfg));
      NowIs(s);
      IsTried(env, before, cfg, order, ok, Now(s));
    }
  
    /** Release a container the CPU manager does not know. */
    method ReleaseLingering(s: ManagerState, id: string)
      requires pools.Unaliased() && pools.Surroundings() && Restorable(pools.Environment(), pools.Abs())
      requires id in pools.Abs().containers
      modifies pools, pools.Objects(), pools.metrics, pools.lookups, pools.sys`cpus, pools.sys`offline, pools.sys.kernel
      ensures pools.Unaliased() && pools.Surroundings() && pools.Environment() == old(pools.Environment())
      ensures forall o :: o in pools.Objects() ==> o in old(pools.Objects()) || fresh(o)
      ensures Restorable(pools.Environment(), pools.Abs()) && s.View() == old(s.View())
      ensures Alike(old(pools.Abs()).containers - {id}, pools.Abs().containers)
    {
      hide *;
      ghost var env, before := pools.Environment(), pools.Abs();
      RestorableServes(env, before);
      pools.AbsIs();
      pools.HaveCpusIs();
      ghost var ok, order := pools.ReleaseCPU(id);
      RestorableStill(env, before, id, order, pools.Abs(), ok);
    }

    /** restoreState, from a restored pool set: the containers the CPU manager does not know are released. */
    method RestoreState(s: ManagerState)
      requires pools.Unaliased() && pools.Surroundings() && Restorable(pools.Environment(), pools.Abs())
      modifies pools, pools.Objects(), pools.metrics, pools.lookups, pools.sys`cpus, pools.sys`offline, pools.sys.kernel
      ensures pools.Unaliased() && pools.Surroundings() && pools.Environment() == old(pools.Environment())
      ensures Restorable(pools.Environment(), pools.Abs()) && s.View() == old(s.View())
      ensures
        var known, cs, cs' := s.View().assignments.Keys, old(pools.Abs()).containers, pools.Abs().containers;
        cs'.Keys == cs.Keys * known && Alike(cs - (cs.Keys - known), cs')
    {
      hide *;
      ghost var env, before, told := pools.Environment(), pools.Abs(), s.View();
      RestorableServes(env, before);
      pools.AbsIs();
      var assignments := pools.GetPoolAssignments(false);
      AssignmentsKeys(before);
      NothingReleased(before.containers, told.assignments.Keys);
      var remaining := assignments.Keys;
      while remaining != {}
        invariant remaining <= before.containers.Keys && s.View() == told
        invariant pools.Unaliased() && pools.Surroundings() && pools.Environment() == env
        invariant forall o :: o in pools.Objects() ==> o in old(pools.Objects()) || fresh(o)
        invariant Restorable(env, pools.Abs())
        invariant Lingering(before.containers, told.assignments.Keys, remaining, pools.Abs().containers)
      {
        var id :| id in remaining;
        ghost var cs := pools.Abs().containers;
        StillThere(before.containers, told.assignments.Keys, remaining, cs, id);
        var cset, found := Lookup(s, id);
        if !found {
          ReleaseLingering(s, id);
          OneReleased(before.containers, told.assignments.Keys, remaining, cs, id, pools.Abs().containers);
        } else {
          OneKept(before.containers, told.assignments.Keys, remaining, cs, id);
        }
        remaining := remaining - {id};
      }
      AllReleased(before.containers, told.assignments.Keys, pools.Abs().containers);
    }

    method Lookup(s: ManagerState, id: string) returns (cset: CPUSet, found: bool)
      ensures pools.Abs() == old(pools.Abs()) && pools.Objects() == old(pools.Objects()) && s.View() == old(s.View())
      ensures found <==> id in s.View().assignments
    {
      cset, found := s.GetCPUSet(id);
    }
  }

  /** A steady state, as a checkpoint restores it, whose pending configuration, if any, is gentle. */
  ghost predicate Restorable(e: Env, s: State) {
    ValidEnv(e) && Steady(s) && (s.pendingCfg.Some? ==> Gentle(e, s, s.pendingCfg.value))
  }

  lemma RestorableServes(e: Env, s: State)
    requires Restorable(e, s)
    ensures RESERVED in s.pools && DEFAULT in s.pools
    ensures ConfigsHaveCpus(s.pools) && (s.pendingCfg.Some? ==> Ready(s.pendingCfg.value))
  {
    SteadyIsServiceable(s);
    ServiceableHas(s);
  }

  lemma RestorableStill(e: Env, s: State, id: string, order: seq<string>, s': State, ok: bool)
    requires Restorable(e, s) && id in s.containers && ReleasedTo(e, s, id, order, s', ok)
    ensures Restorable(e, s') && Alike(s.containers - {id}, s'.containers)
  {
    hide Steady, Gentle, ReleasedTo, Alike;
    ReleasedToStaysGentle(e, s, id, order, s', ok);
  }

  /** What every request relies on: the reserved and the default pool exist and are configured to, all pools have
      their CPU sets, and the pools of all containers without exclusive CPUs exist. */
  ghost predicate Serviceable(s: State) {
    && RESERVED in s.currentCfg && DEFAULT in s.currentCfg
    && ConfigRecorded(s) && AllConfigured(s.pools)
    && forall id :: id in s.containers && s.containers[id].cpus == {} ==> s.containers[id].pool in s.pools
  }

  lemma ServiceableHas(s: State)
    requires Serviceable(s)
    ensures RESERVED in s.pools && DEFAULT in s.pools
    ensures ConfigsHaveCpus(s.pools)
    ensures forall id :: id in s.containers && s.containers[id].cpus == {} ==> s.containers[id].pool in s.pools
  {
  }

  /** Steady states can be served. */
  lemma SteadyIsServiceable(s: State)
    requires Steady(s)
    ensures Serviceable(s)
  {
  }

  lemma AlreadyAdded(e: Env, w: World, id: string, pool: string, req: int, lim: int)
    requires ValidEnv(e) && id in w.s.containers
    ensures Added(e, w, id, pool, req, lim, w)
  {
  }

  lemma TookExclusive(e: Env, s: State, id: string, pool: string, req: int, lim: int, s': State, ok: bool,
                      result: CPUSet)
    requires ValidEnv(e) && id !in s.containers && req != 0 && req == lim && req % 1000 == 0
    requires TookCpus(e, s, id, pool, req / 1000, s', ok, result)
    ensures Took(e, s, id, pool, req, lim, s', ok) && s'.pools.Keys == s.pools.Keys
    ensures !ok ==> s' == s
  {
    TookCpusOnlyAdds(e, s, id, pool, req / 1000, s', ok, result);
    hide TookCpus;
  }

  lemma TookShared(e: Env, s: State, id: string, pool: string, req: int, lim: int, s': State, ok: bool, result: CPUSet)
    requires ValidEnv(e) && id !in s.containers && !(req != 0 && req == lim && req % 1000 == 0)
    requires TookShare(s, id, pool, req, s', ok, result)
    ensures Took(e, s, id, pool, req, lim, s', ok) && s'.pools.Keys == s.pools.Keys
    ensures !ok ==> s' == s
  {
    TookShareOnlyAdds(s, id, pool, req, s', ok, result);
    hide TookShare;
  }

  lemma Refused(e: Env, w: World, id: string, pool: string, req: int, lim: int, w': World)
    requires ValidEnv(e) && id !in w.s.containers && Took(e, w.s, id, pool, req, lim, w'.s, false) && w'.pub == w.pub
    ensures Added(e, w, id, pool, req, lim, w')
  {
    hide Took;
  }

  lemma IsAdded(e: Env, w: World, id: string, pool: string, req: int, lim: int, w': World)
    requires ValidEnv(e) && id !in w.s.containers && Took(e, w.s, id, pool, req, lim, w'.s, true)
    requires RESERVED in w'.s.pools && DEFAULT in w'.s.pools && w'.pub == Publish(w.pub, w'.s)
    ensures Added(e, w, id, pool, req, lim, w')
  {
    hide Took, Publish;
  }

  /** A dropped pool in use dooms its containers: the next configuration that does not name it either is rejected,
      since the pool is busy, and the rollback then deletes the pool, but not the containers, which cannot be served
      any more. */
  lemma DroppedPoolIsLost(e: Env, s: State, order: seq<string>, s': State, ok: bool, id: string)
    requires ValidEnv(e) && ConfigRecorded(s) && s.pendingCfg.Some? && Reconciled(e, s, order, s', ok)
    requires id in s.containers
    requires
      var p := s.containers[id].pool;
      p in Busy(s.pools) && p !in s.currentCfg && p !in s.pendingCfg.value
    ensures !ok && id in s'.containers && s'.containers[id] == s.containers[id]
    ensures s.containers[id].pool !in s'.pools
    ensures s.containers[id].cpus == {} ==> !Serviceable(s')
  {
    var accepts := ReconciledAs(e, s, order, s', ok);
    hide Reconciled, SameRequest, Accepted, ScanAll, Passes;
    RollbackKeepsPoolsIff(e, s, s.pendingCfg.value, s', id);
  }

  /** The required pools survive whatever a release leads to. */
  lemma ReleasedHas(e: Env, s: State, id: string, order: seq<string>, s': State, ok: bool)
    requires ValidEnv(e) && Serviceable(s) && ReleasedTo(e, s, id, order, s', ok)
    ensures RESERVED in s'.pools && DEFAULT in s'.pools
  {
    if id in s.containers && s.containers[id].pool in s.pools {
      var r := Released(s, id);
      ReleasedServes(s, id);
      hide Released, Serviceable;
      if r.pendingCfg.Some? {
        var accepts := ReconciledAs(e, r, order, s', ok);
        hide Reconciled, Accepts;
        ServiceableHas(r);
        if accepts {
          AcceptedHas(e, r, r.pendingCfg.value, order, s');
        } else {
          RejectedHas(e, r, r.pendingCfg.value, s');
        }
      } else {
        ServiceableHas(r);
      }
    } else {
      ServiceableHas(s);
    }
  }

  lemma ReleasedServes(s: State, id: string)
    requires Serviceable(s) && id in s.containers && s.containers[id].pool in s.pools
    ensures Serviceable(Released(s, id))
  {
    hide Measure;
  }

  lemma AcceptedHas(e: Env, s: State, cfg: NodeConfig, order: seq<string>, s': State)
    requires ValidEnv(e) && Serviceable(s)
    requires IsOrder(order, cfg.Keys) && Accepts(e.m, Busy(s.pools), cfg, order) && Accepted(e, s, cfg, order, s')
    ensures RESERVED in s'.pools && DEFAULT in s'.pools
  {
    ServiceableHas(s);
    hide Accepts, Reallocates;
    assert forall p :: p in s.pools ==> p in Activated(s.pools, s'.currentCfg);
  }

  lemma RejectedHas(e: Env, s: State, cfg: NodeConfig, s': State)
    requires ValidEnv(e) && Serviceable(s) && Rejected(e, s, cfg, s')
    ensures RESERVED in s'.pools && DEFAULT in s'.pools
  {
    ServiceableHas(s);
    hide SameRequest;
  }

  lemma IsRemoved(e: Env, w: World, id: string, order: seq<string>, ok: bool, w': World)
    requires ValidEnv(e) && ReleasedTo(e, w.s, id, order, w'.s, ok)
    requires RESERVED in w'.s.pools && DEFAULT in w'.s.pools
    requires w'.pub == Publish(w.pub.(assignments := w.pub.assignments - {id}), w'.s)
    ensures Removed(e, w, id, w')
  {
    hide ReleasedTo, Publish;
  }

  lemma IsTried(e: Env, w: World, cfg: NodeConfig, order: seq<string>, ok: bool, w': World)
    requires ValidEnv(e) && w'.pub == w.pub && Reconciled(e, w.s.(pendingCfg := Some(cfg)), order, w'.s, ok)
    ensures Tried(e, w, cfg, w')
  {
    hide Reconciled;
  }

  lemma AssignmentsKeys(s: State)
    requires RESERVED in s.pools && DEFAULT in s.pools
    ensures Assignments(s).Keys == s.containers.Keys
  {
  }

  /** Of the containers that were there, those that are neither known nor remaining to be looked at are gone. */
  ghost predicate Lingering(cs0: map<string, Container>, known: set<string>, remaining: set<string>,
                            cs: map<string, Container>) {
    Alike(cs0 - (cs0.Keys - known - remaining), cs)
  }

  lemma NothingReleased(cs: map<string, Container>, known: set<string>)
    ensures Lingering(cs, known, cs.Keys, cs)
  {
    assert cs - (cs.Keys - known - cs.Keys) == cs;
  }

  lemma StillThere(cs0: map<string, Container>, known: set<string>, remaining: set<string>,
                   cs: map<string, Container>, id: string)
    requires Lingering(cs0, known, remaining, cs) && id in cs0 && id in remaining
    ensures id in cs
  {
    assert id in cs0 - (cs0.Keys - known - remaining);
  }

  lemma OneReleased(cs0: map<string, Container>, known: set<string>, remaining: set<string>,
                    cs: map<string, Container>, id: string, cs': map<string, Container>)
    requires Lingering(cs0, known, remaining, cs) && id in cs0 && id !in known && id in remaining
    requires Alike(cs - {id}, cs')
    ensures Lingering(cs0, known, remaining - {id}, cs')
  {
    var now, next := cs0 - (cs0.Keys - known - remaining), cs0 - (cs0.Keys - known - (remaining - {id}));
    assert next == now - {id};
    forall x | x in next ensures AlikeContainer(next[x], cs'[x]) {
      assert AlikeContainer(now[x], cs[x]) && AlikeContainer((cs - {id})[x], cs'[x]);
    }
  }

  lemma OneKept(cs0: map<string, Container>, known: set<string>, remaining: set<string>,
                cs: map<string, Container>, id: string)
    requires Lingering(cs0, known, remaining, cs) && id in known
    ensures Lingering(cs0, known, remaining - {id}, cs)
  {
    assert cs0.Keys - known - (remaining - {id}) == cs0.Keys - known - remaining;
  }

  lemma AllReleased(cs0: map<string, Container>, known: set<string>, cs: map<string, Container>)
    requires Lingering(cs0, known, {}, cs)
    ensures cs.Keys == cs0.Keys * known && Alike(cs0 - (cs0.Keys - known), cs)
  {
    assert cs0.Keys - known - {} == cs0.Keys - known;
  }

  /** One more entry is written: it was as before until then. */
  lemma AddOne<V>(a: map<string, V>, b: map<string, V>, remaining: set<string>, k: string)
    requires k in remaining && k in b
    ensures
      var now, next := a + (b - remaining), a + (b - (remaining - {k}));
      next == now[k := b[k]] && Changed(a, next) == Changed(a, now) + Changed(now, next)
  {
    var now, next := a + (b - remaining), a + (b - (remaining - {k}));
    assert next == now[k := b[k]];
    assert k in now ==> k in a && now[k] == a[k];
  }

  lemma NothingChanged<V>(a: map<string, V>, b: map<string, V>)
    ensures a + (b - b.Keys) == a && Changed(a, a) == {}
  {
  }

  lemma PublishIs(pub: Published, s: State, pub': Published)
    requires RESERVED in s.pools && DEFAULT in s.pools
    requires pub'.assignments == pub.assignments + Assignments(s) && pub'.capacity == pub.capacity + Capacities(s)
    requires pub'.defaultCpus == PoolCpuSet(s, DEFAULT)
    ensures pub' == Publish(pub, s)
  {
  }
}
