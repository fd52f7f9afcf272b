/** The state of the pool set as a value, what makes it consistent, and what each operation does to it. */
module PoolState {
  import opened CpuSets
  import opened Topology
  import opened NodeConfigs
  import opened Preparation
  import opened PoolMetrics
  import AllocSpec

  datatype PoolView = PoolView(shared: CPUSet, pinned: CPUSet, used: int, cfg: Option<Config>)

  datatype Container = Container(id: string, pool: string, cpus: CPUSet, req: int)

  datatype State = State(
    pools: map<string, PoolView>,
    containers: map<string, Container>,
    offlined: CPUSet,
    currentCfg: NodeConfig,
    pendingCfg: Option<NodeConfig>,
    cache: map<string, PoolData>,
    online: CPUSet)

  /** The fixed surroundings: the node, and the CPUs the allocator takes to be offline. */
  datatype Env = Env(m: Machine, allocOffline: CPUSet)

  ghost predicate ValidEnv(e: Env) {
    ValidMachine(e.m) && NoDeadCore(e.m.topo, e.allocOffline)
  }

  // Sums over containers

  ghost function Sum(w: map<string, int>): int {
    if w == map[] then 0 else
    var k := Pick(w.Keys);
    w[k] + Sum(w - {k})
  }

  lemma {:induction false} SumRemove(w: map<string, int>, k: string)
    requires k in w
    ensures Sum(w) == w[k] + Sum(w - {k})
  {
    var j := Pick(w.Keys);
    if j != k {
      SumRemove(w - {j}, k);
      SumRemove(w - {k}, j);
      assert w - {j} - {k} == w - {k} - {j};
    }
  }

  /** The exclusive CPUs of the containers of a pool. */
  ghost function Exclusive(cs: map<string, Container>, p: string): CPUSet {
    set id, c | id in cs && cs[id].pool == p && c in cs[id].cpus :: c
  }

  /** What each container takes of the shared CPUs of a pool. */
  ghost function Uses(cs: map<string, Container>, p: string): map<string, int> {
    map id | id in cs :: if cs[id].pool == p && cs[id].cpus == {} then cs[id].req else 0
  }

  /** What each container requested from a pool. */
  ghost function Requests(cs: map<string, Container>, p: string): map<string, int> {
    map id | id in cs :: if cs[id].pool == p then cs[id].req else 0
  }

  // Consistent states

  ghost predicate Allowed(pool: string) {
    pool != IGNORED && pool != OFFLINE
  }

  /** The pools that give out exclusive CPUs. */
  ghost predicate Exclusable(pool: string) {
    Allowed(pool) && pool != RESERVED && pool != ""
  }

  ghost predicate ContainersOk(cs: map<string, Container>, pools: set<string>) {
    && (forall id :: id in cs ==> cs[id].id == id && cs[id].pool in pools)
    && (forall id :: id in cs && cs[id].cpus != {} ==>
          Exclusable(cs[id].pool) && cs[id].req == 1000 * |cs[id].cpus|)
    && (forall a, b :: a in cs && b in cs && a != b ==> cs[a].cpus !! cs[b].cpus)
  }

  function Footprint(p: PoolView): CPUSet {
    p.shared + p.pinned
  }

  /** Within a pool shared and pinned CPUs are separate, and the pools are separate from each other. */
  ghost predicate Separated(pools: map<string, PoolView>) {
    && (forall p :: p in pools ==> pools[p].shared !! pools[p].pinned)
    && (forall p, q :: p in pools && q in pools && p != q ==> Footprint(pools[p]) !! Footprint(pools[q]))
  }

  /** Pinned CPUs and shared use are those of the pool's containers. */
  ghost predicate Accounted(pools: map<string, PoolView>, cs: map<string, Container>) {
    forall p :: p in pools ==> pools[p].pinned == Exclusive(cs, p) && pools[p].used == Sum(Uses(cs, p))
  }

  /** The pools are exactly those of the current configuration, and carry it. */
  ghost predicate ConfigCurrent(s: State) {
    && s.pools.Keys == s.currentCfg.Keys
    && forall p :: p in s.pools ==> s.pools[p].cfg == Some(s.currentCfg[p]) && s.currentCfg[p].cpus.Some?
  }

  function PoolUsage(p: PoolView): int {
    1000 * |p.pinned| + p.used
  }

  function PoolCapacity(p: PoolView): int {
    1000 * (|p.shared| + |p.pinned|)
  }

  function DataOf(name: string, p: PoolView): PoolData {
    PoolData(name, p.shared, p.pinned, PoolCapacity(p), PoolUsage(p))
  }

  /** Which pools have metrics. */
  predicate Measured(p: string) {
    p != RESERVED && p != ""
  }

  ghost function ExpectedCache(pools: map<string, PoolView>): map<string, PoolData> {
    map p | p in pools && Measured(p) :: DataOf(p, pools[p])
  }

  /** Containers, pools and their accounts fit together. */
  ghost predicate Sound(s: State) {
    && ContainersOk(s.containers, s.pools.Keys)
    && Separated(s.pools)
    && Accounted(s.pools, s.containers)
  }

  /** The pools, sound and as configured, with the required ones among them. */
  ghost predicate Steady(s: State) {
    Sound(s) && ConfigCurrent(s) && RESERVED in s.pools && DEFAULT in s.pools
  }

  /** What holds in every state after the first successful configuration: the metrics are up to date as well. */
  ghost predicate Consistent(s: State) {
    Steady(s) && s.cache == ExpectedCache(s.pools)
  }

  lemma ConsistentIsSteady(s: State)
    requires Consistent(s)
    ensures Steady(s)
  {
  }

  // What is published

  /** GetPoolCPUSet: the shared CPUs of a pool, none if there is no such pool; the reserved and the default pool share
      theirs. */
  function PoolCpuSet(s: State, pool: string): CPUSet
    requires RESERVED in s.pools && DEFAULT in s.pools
  {
    if pool == DEFAULT || pool == RESERVED then s.pools[DEFAULT].shared + s.pools[RESERVED].shared
    else if pool in s.pools then s.pools[pool].shared
    else {}
  }

  /** The CPUs a container runs on. */
  function ContainerCpuSet(s: State, c: Container): CPUSet
    requires RESERVED in s.pools && DEFAULT in s.pools
  {
    if c.cpus != {} then c.cpus else PoolCpuSet(s, c.pool)
  }

  /** The CPUs of all containers. */
  ghost function Assignments(s: State): map<string, CPUSet>
    requires RESERVED in s.pools && DEFAULT in s.pools
  {
    map id | id in s.containers :: ContainerCpuSet(s, s.containers[id])
  }

  ghost function Capacities(s: State): map<string, int> {
    map p | p in s.pools :: PoolCapacity(s.pools[p])
  }

  /** No CPU that a pool shares is ever one of a container's exclusive CPUs. */
  lemma SharedIsolation(s: State, a: string)
    requires Sound(s) && a in s.containers
    ensures forall r :: r in s.pools ==> s.containers[a].cpus !! s.pools[r].shared
  {
    ExclusiveIn(s.containers, a);
    forall r | r in s.pools ensures s.containers[a].cpus !! s.pools[r].shared {
      if r != s.containers[a].pool { assert Footprint(s.pools[r]) !! Footprint(s.pools[s.containers[a].pool]); }
    }
  }

  /** No default CPU and no other container's CPU is ever one of a container's exclusive CPUs. */
  lemma Isolation(s: State, a: string)
    requires Consistent(s) && a in s.containers
    ensures s.containers[a].cpus !! PoolCpuSet(s, DEFAULT)
    ensures forall b :: b in s.containers && b != a ==> s.containers[a].cpus !! ContainerCpuSet(s, s.containers[b])
  {
    SharedIsolation(s, a);
    hide Separated, Accounted, ConfigCurrent, ExpectedCache;
    forall b | b in s.containers && b != a ensures s.containers[a].cpus !! ContainerCpuSet(s, s.containers[b]) {
      assert s.containers[b].pool in s.pools;
    }
  }

  lemma ExclusiveIn(cs: map<string, Container>, a: string)
    requires a in cs
    ensures cs[a].cpus <= Exclusive(cs, cs[a].pool)
  {
    forall x | x in cs[a].cpus ensures x in Exclusive(cs, cs[a].pool) { }
  }

  lemma {:induction false} UsageOf(cs: map<string, Container>, pools: set<string>, p: string)
    requires ContainersOk(cs, pools)
    ensures 1000 * |Exclusive(cs, p)| + Sum(Uses(cs, p)) == Sum(Requests(cs, p))
  {
    if cs.Keys == {} {
      assert Exclusive(cs, p) == {};
    } else {
      var id := Pick(cs.Keys);
      var rest := cs - {id};
      UsageOf(rest, pools, p);
      WithoutContainer(cs, pools, id, p);
    }
  }

  /** What removing a container does to the sums and the exclusive CPUs of a pool. */
  lemma WithoutContainer(cs: map<string, Container>, pools: set<string>, id: string, p: string)
    requires ContainersOk(cs, pools) && id in cs
    ensures
      var rest, c := cs - {id}, cs[id];
      && ContainersOk(rest, pools)
      && (if c.pool == p then Exclusive(cs, p) == Exclusive(rest, p) + c.cpus && Exclusive(rest, p) !! c.cpus
          else Exclusive(cs, p) == Exclusive(rest, p))
      && |Exclusive(cs, p)| == |Exclusive(rest, p)| + (if c.pool == p then |c.cpus| else 0)
      && Sum(Uses(cs, p)) == Sum(Uses(rest, p)) + (if c.pool == p && c.cpus == {} then c.req else 0)
      && Sum(Requests(cs, p)) == Sum(Requests(rest, p)) + (if c.pool == p then c.req else 0)
  {
    var rest, c := cs - {id}, cs[id];
    WithoutSums(cs, id, p);
    ExclusiveSplit(cs, id, p);
    OthersExclusive(cs, pools, id, p);
    UnionSize(Exclusive(rest, p), c.cpus);
  }

  lemma WithoutSums(cs: map<string, Container>, id: string, p: string)
    requires id in cs
    ensures
      var rest, c := cs - {id}, cs[id];
      && Sum(Uses(cs, p)) == Sum(Uses(rest, p)) + (if c.pool == p && c.cpus == {} then c.req else 0)
      && Sum(Requests(cs, p)) == Sum(Requests(rest, p)) + (if c.pool == p then c.req else 0)
  {
    var rest := cs - {id};
    SumRemove(Uses(cs, p), id);
    SumRemove(Requests(cs, p), id);
    assert Uses(cs, p) - {id} == Uses(rest, p);
    assert Requests(cs, p) - {id} == Requests(rest, p);
  }

  lemma OthersExclusive(cs: map<string, Container>, pools: set<string>, id: string, p: string)
    requires ContainersOk(cs, pools) && id in cs
    ensures Exclusive(cs - {id}, p) !! cs[id].cpus
  {
    var rest := cs - {id};
    forall x | x in Exclusive(rest, p) ensures x !in cs[id].cpus {
      var b :| b in rest && rest[b].pool == p && x in rest[b].cpus;
      assert cs[b].cpus !! cs[id].cpus;
    }
  }

  lemma ExclusiveSplit(cs: map<string, Container>, id: string, p: string)
    requires id in cs
    ensures Exclusive(cs, p) == Exclusive(cs - {id}, p) + (if cs[id].pool == p then cs[id].cpus else {})
  {
    var rest := cs - {id};
    var all, before := Exclusive(cs, p), Exclusive(rest, p);
    forall x | x in all ensures x in before || (cs[id].pool == p && x in cs[id].cpus) {
      var a :| a in cs && cs[a].pool == p && x in cs[a].cpus;
      assert a == id || a in rest;
    }
    forall x | x in before ensures x in all {
      var a :| a in rest && rest[a].pool == p && x in rest[a].cpus;
      assert a in cs;
    }
    if cs[id].pool == p { ExclusiveIn(cs, id); }
  }

  /** The usage of a pool is the sum of the requests of all its containers. */
  lemma UsageIsRequests(s: State, p: string)
    requires Consistent(s) && p in s.pools
    ensures PoolUsage(s.pools[p]) == Sum(Requests(s.containers, p))
  {
    UsageOf(s.containers, s.pools.Keys, p);
  }

  // Allocating and releasing

  /** The cache after the metrics of one pool were updated. */
  ghost function Measure(cache: map<string, PoolData>, pools: map<string, PoolView>, p: string): map<string, PoolData> {
    if Measured(p) && p in pools then cache[p := DataOf(p, pools[p])] else cache
  }

  ghost function WithShare(s: State, id: string, pool: string, req: int): State
    requires pool in s.pools
  {
    var pools := s.pools[pool := s.pools[pool].(used := s.pools[pool].used + req)];
    s.(pools := pools,
       containers := s.containers[id := Container(id, pool, {}, req)],
       cache := Measure(s.cache, pools, pool))
  }

  ghost function WithCpus(s: State, id: string, pool: string, cpus: CPUSet, left: CPUSet): State
    requires pool in s.pools
  {
    var pools := s.pools[pool := s.pools[pool].(shared := left, pinned := s.pools[pool].pinned + cpus)];
    s.(pools := pools,
       containers := s.containers[id := Container(id, pool, cpus, 1000 * |cpus|)],
       cache := Measure(s.cache, pools, pool))
  }

  /** AllocateCPU: a share of a pool's shared CPUs. An unusable pool gives no CPUs, but no error either. */
  ghost predicate TookShare(s: State, id: string, pool: string, req: int, s': State, ok: bool, result: CPUSet) {
    if !Allowed(pool) then ok && result == {} && s' == s
    else if pool !in s.pools then !ok && result == {} && s' == s
    else ok && result == s.pools[pool].shared && s' == WithShare(s, id, pool, req)
  }

  /** The pool that exclusive CPUs are taken from. */
  function ExclusivePool(pool: string): string {
    if pool == "" then DEFAULT else pool
  }

  /** AllocateCPUs: exclusive CPUs, except that the reserved pool is always shared. */
  ghost predicate TookCpus(e: Env, s: State, id: string, pool: string, n: int, s': State, ok: bool, result: CPUSet)
    requires ValidEnv(e)
  {
    var p := ExclusivePool(pool);
    if pool == RESERVED then TookShare(s, id, pool, 1000 * n, s', ok, result)
    else if !Allowed(p) || p !in s.pools then !ok && result == {} && s' == s
    else exists left ::
      && AllocSpec.Outcome(e.m.topo, e.allocOffline, s.pools[p].shared, n, result, left, ok)
      && s' == if ok then WithCpus(s, id, p, result, left) else s
  }

  /** What exclusive allocation from an existing pool did. */
  lemma TookFrom(e: Env, s: State, id: string, pool: string, n: int, s': State, ok: bool, result: CPUSet)
    returns (left: CPUSet)
    requires ValidEnv(e) && TookCpus(e, s, id, pool, n, s', ok, result)
    requires pool != RESERVED && Allowed(ExclusivePool(pool)) && ExclusivePool(pool) in s.pools
    ensures AllocSpec.Outcome(e.m.topo, e.allocOffline, s.pools[ExclusivePool(pool)].shared, n, result, left, ok)
    ensures s' == if ok then WithCpus(s, id, ExclusivePool(pool), result, left) else s
  {
    left :| AllocSpec.Outcome(e.m.topo, e.allocOffline, s.pools[ExclusivePool(pool)].shared, n, result, left, ok)
            && s' == if ok then WithCpus(s, id, ExclusivePool(pool), result, left) else s;
  }

  /** ReleaseCPU, up to the attempt to reconcile that ends it. */
  ghost function Released(s: State, id: string): State
    requires id in s.containers && s.containers[id].pool in s.pools
  {
    var c := s.containers[id];
    var pv := s.pools[c.pool];
    var pv' := if c.cpus == {} then pv.(used := pv.used - c.req)
               else pv.(shared := pv.shared + c.cpus, pinned := pv.pinned - c.cpus);
    var pools := s.pools[c.pool := pv'];
    s.(pools := pools, containers := s.containers - {id}, cache := Measure(s.cache, pools, c.pool))
  }

  lemma MeasureKeeps(cache: map<string, PoolData>, pools: map<string, PoolView>, p: string, pv: PoolView)
    requires cache == ExpectedCache(pools) && p in pools
    ensures Measure(cache, pools[p := pv], p) == ExpectedCache(pools[p := pv])
  {
  }

  /** One pool changes within its footprint. */
  lemma SeparatedKeeps(pools: map<string, PoolView>, p: string, pv: PoolView)
    requires Separated(pools) && p in pools
    requires pv.shared !! pv.pinned && Footprint(pv) <= Footprint(pools[p])
    ensures Separated(pools[p := pv])
  {
    var pools' := pools[p := pv];
    forall q, r | q in pools' && r in pools' && q != r ensures Footprint(pools'[q]) !! Footprint(pools'[r]) {
      assert Footprint(pools[q]) !! Footprint(pools[r]);
    }
  }

  /** Accounts after a container of pool p with the given CPUs or share was added. */
  lemma AccountedAfterAdding(pools: map<string, PoolView>, cs: map<string, Container>, id: string, c: Container,
                             pv: PoolView)
    requires Accounted(pools, cs) && id !in cs && c.pool in pools
    requires ContainersOk(cs[id := c], pools.Keys)
    requires pv.pinned == pools[c.pool].pinned + c.cpus
    requires pv.used == pools[c.pool].used + (if c.cpus == {} then c.req else 0)
    ensures Accounted(pools[c.pool := pv], cs[id := c])
  {
    var cs', pools' := cs[id := c], pools[c.pool := pv];
    assert cs' - {id} == cs;
    forall p | p in pools' ensures pools'[p].pinned == Exclusive(cs', p) && pools'[p].used == Sum(Uses(cs', p)) {
      WithoutContainer(cs', pools.Keys, id, p);
    }
  }

  lemma AccountedAfterRemoving(pools: map<string, PoolView>, cs: map<string, Container>, id: string, pv: PoolView)
    requires Accounted(pools, cs) && id in cs && cs[id].pool in pools
    requires ContainersOk(cs, pools.Keys)
    requires pv.pinned == pools[cs[id].pool].pinned - cs[id].cpus
    requires pv.used == pools[cs[id].pool].used - (if cs[id].cpus == {} then cs[id].req else 0)
    ensures Accounted(pools[cs[id].pool := pv], cs - {id})
  {
    var cs', pools' := cs - {id}, pools[cs[id].pool := pv];
    forall p | p in pools' ensures pools'[p].pinned == Exclusive(cs', p) && pools'[p].used == Sum(Uses(cs', p)) {
      WithoutContainer(cs, pools.Keys, id, p);
    }
  }

  /** A new container whose exclusive CPUs are nobody else's. */
  lemma ContainersAfterAdding(cs: map<string, Container>, pools: set<string>, id: string, c: Container)
    requires ContainersOk(cs, pools) && id !in cs
    requires c.id == id && c.pool in pools
    requires c.cpus != {} ==> Exclusable(c.pool) && c.req == 1000 * |c.cpus|
    requires forall b :: b in cs ==> cs[b].cpus !! c.cpus
    ensures ContainersOk(cs[id := c], pools)
  {
  }

  /** Shared CPUs of a pool are no container's exclusive ones. */
  lemma SharedNotExclusive(s: State, pool: string, b: string)
    requires Sound(s) && pool in s.pools && b in s.containers
    ensures s.containers[b].cpus !! s.pools[pool].shared
    ensures s.containers[b].cpus <= s.pools[s.containers[b].pool].pinned
  {
    ExclusiveIn(s.containers, b);
    if s.containers[b].pool != pool { assert Footprint(s.pools[s.containers[b].pool]) !! Footprint(s.pools[pool]); }
  }

  /** A sound state after one pool changed is steady, or consistent, again. */
  lemma OnePoolChanged(s: State, s': State, p: string, pv: PoolView)
    requires Steady(s) && p in s.pools && pv.cfg == s.pools[p].cfg
    requires s'.pools == s.pools[p := pv] && s'.currentCfg == s.currentCfg
    requires s'.cache == Measure(s.cache, s'.pools, p)
    requires Sound(s')
    ensures Steady(s') && (Consistent(s) ==> Consistent(s'))
  {
    hide Sound, ExpectedCache, Measure;
    assert Steady(s');
    if Consistent(s) {
      MeasureKeeps(s.cache, s.pools, p, pv);
    }
  }

  /** A container is added to a pool whose CPUs stay within its footprint. */
  lemma SoundAfterAdding(s: State, s': State, id: string, c: Container, pv: PoolView)
    requires Sound(s) && id !in s.containers && c.id == id && c.pool in s.pools
    requires s'.pools == s.pools[c.pool := pv] && s'.containers == s.containers[id := c]
    requires c.cpus != {} ==> Exclusable(c.pool) && c.req == 1000 * |c.cpus|
    requires c.cpus !! pv.shared && c.cpus + pv.shared <= s.pools[c.pool].shared
    requires pv.pinned == s.pools[c.pool].pinned + c.cpus
    requires pv.used == s.pools[c.pool].used + (if c.cpus == {} then c.req else 0)
    ensures Sound(s')
  {
    hide Sum, Uses, Exclusive;
    forall b | b in s.containers ensures s.containers[b].cpus !! c.cpus {
      SharedNotExclusive(s, c.pool, b);
    }
    ContainersAfterAdding(s.containers, s.pools.Keys, id, c);
    SeparatedKeeps(s.pools, c.pool, pv);
    AccountedAfterAdding(s.pools, s.containers, id, c, pv);
    assert s'.pools.Keys == s.pools.Keys;
  }

  /** Adding a container that runs on shared CPUs keeps the state consistent. */
  lemma WithShareKeeps(s: State, id: string, pool: string, req: int)
    requires Consistent(s) && id !in s.containers && pool in s.pools
    ensures Consistent(WithShare(s, id, pool, req))
  {
    var s' := WithShare(s, id, pool, req);
    hide Separated, ContainersOk, Accounted, ExpectedCache, ConfigCurrent;
    SoundAfterAdding(s, s', id, Container(id, pool, {}, req), s'.pools[pool]);
    OnePoolChanged(s, s', pool, s'.pools[pool]);
  }

  /** Adding a container with exclusive CPUs out of the shared ones keeps the state consistent. */
  lemma WithCpusKeeps(s: State, id: string, pool: string, cpus: CPUSet, left: CPUSet)
    requires Consistent(s) && id !in s.containers && pool in s.pools && Exclusable(pool)
    requires cpus !! left && cpus + left <= s.pools[pool].shared
    ensures Consistent(WithCpus(s, id, pool, cpus, left))
  {
    var s' := WithCpus(s, id, pool, cpus, left);
    hide Separated, ContainersOk, Accounted, ExpectedCache, ConfigCurrent;
    SoundAfterAdding(s, s', id, Container(id, pool, cpus, 1000 * |cpus|), s'.pools[pool]);
    OnePoolChanged(s, s', pool, s'.pools[pool]);
  }

  /** Whatever AllocateCPUs does, the state stays consistent. */
  lemma TookCpusKeeps(e: Env, s: State, id: string, pool: string, n: int, s': State, ok: bool, result: CPUSet)
    requires ValidEnv(e) && Consistent(s) && id !in s.containers
    requires TookCpus(e, s, id, pool, n, s', ok, result)
    ensures Consistent(s')
  {
    var p := ExclusivePool(pool);
    if pool == RESERVED {
      TookShareKeeps(s, id, pool, 1000 * n, s', ok, result);
    } else if Allowed(p) && p in s.pools {
      var left := TookFrom(e, s, id, pool, n, s', ok, result);
      if ok {
        AllocSpec.ResultsApart(e.m.topo, e.allocOffline, s.pools[p].shared, n, result, left, ok);
        WithCpusKeeps(s, id, p, result, left);
      }
    }
  }

  lemma TookShareKeeps(s: State, id: string, pool: string, req: int, s': State, ok: bool, result: CPUSet)
    requires Consistent(s) && id !in s.containers
    requires TookShare(s, id, pool, req, s', ok, result)
    ensures Consistent(s')
  {
    if Allowed(pool) && pool in s.pools {
      WithShareKeeps(s, id, pool, req);
    }
  }

  /** Exclusive allocation keeps the footprint, and so the capacity, of its pool exactly if it asks for all the
      shared CPUs or for no more than the allocator can use, or if there is nothing it could lose. */
  lemma CapacityKeptIff(e: Env, s: State, id: string, pool: string, n: int, s': State, result: CPUSet)
    requires ValidEnv(e) && Sound(s)
    requires pool != RESERVED && Allowed(ExclusivePool(pool)) && ExclusivePool(pool) in s.pools
    requires TookCpus(e, s, id, pool, n, s', true, result)
    ensures
      var p := ExclusivePool(pool);
      var usable := AllocSpec.Usable(e.m.topo, e.allocOffline, s.pools[p].shared);
      p in s'.pools &&
      (PoolCapacity(s'.pools[p]) == PoolCapacity(s.pools[p]) <==>
          n == |s.pools[p].shared| || 0 <= n <= |usable| || usable == {})
  {
    var p := ExclusivePool(pool);
    var left := TookFrom(e, s, id, pool, n, s', true, result);
    AllocSpec.ResultsApart(e.m.topo, e.allocOffline, s.pools[p].shared, n, result, left, true);
    AllocSpec.RestKeptIff(e.m.topo, e.allocOffline, s.pools[p].shared, n, result, left);
    var pv, pv' := s.pools[p], s'.pools[p];
    hide AllocSpec.Outcome, Accounted, ContainersOk, AllocSpec.Usable;
    CapacityOfParts(pv.shared, pv.pinned, left, result);
  }

  lemma CapacityOfParts(shared: CPUSet, pinned: CPUSet, left: CPUSet, result: CPUSet)
    requires shared !! pinned && left !! result && left + result <= shared
    ensures |left| + |pinned + result| == |shared| + |pinned| <==> left + result == shared
  {
    UnionSize(left, result);
    UnionSize(pinned, result);
    SubsetSize(left + result, shared);
  }

  lemma UnpinnedParts(shared: CPUSet, pinned: CPUSet, cpus: CPUSet)
    requires shared !! pinned && cpus <= pinned
    ensures (shared + cpus) !! (pinned - cpus)
    ensures (shared + cpus) + (pinned - cpus) == shared + pinned
    ensures |shared + cpus| + |pinned - cpus| == |shared| + |pinned|
  {
    UnionSize(shared, cpus);
    DifferenceSize(pinned, cpus);
  }

  /** A released pool: the container's CPUs go back to the shared ones. */
  lemma ReleasedPool(s: State, id: string)
    requires Sound(s) && id in s.containers
    ensures
      var c, pv, pv' := s.containers[id], s.pools[s.containers[id].pool], Released(s, id).pools[s.containers[id].pool];
      && pv'.shared == pv.shared + c.cpus && pv'.pinned == pv.pinned - c.cpus
      && pv'.used == pv.used - (if c.cpus == {} then c.req else 0) && pv'.cfg == pv.cfg
      && pv'.shared !! pv'.pinned && Footprint(pv') == Footprint(pv) && PoolCapacity(pv') == PoolCapacity(pv)
  {
    var c, pv := s.containers[id], s.pools[s.containers[id].pool];
    ExclusiveIn(s.containers, id);
    UnpinnedParts(pv.shared, pv.pinned, c.cpus);
    if c.cpus == {} {
      assert pv.shared + {} == pv.shared && pv.pinned - {} == pv.pinned;
    }
  }

  /** Releasing a container keeps the state sound. */
  lemma SoundAfterRemoving(s: State, id: string)
    requires Sound(s) && id in s.containers
    ensures Sound(Released(s, id))
  {
    var s', c := Released(s, id), s.containers[id];
    ReleasedPool(s, id);
    hide Sum, Uses, Exclusive;
    SeparatedKeeps(s.pools, c.pool, s'.pools[c.pool]);
    AccountedAfterRemoving(s.pools, s.containers, id, s'.pools[c.pool]);
    ContainersAfterRemoving(s.containers, s.pools.Keys, id);
    assert s'.pools.Keys == s.pools.Keys;
  }

  lemma ContainersAfterRemoving(cs: map<string, Container>, pools: set<string>, id: string)
    requires ContainersOk(cs, pools)
    ensures ContainersOk(cs - {id}, pools)
  {
  }

  /** Releasing a container keeps the state consistent, and steady if its metrics are out of date. */
  lemma ReleasedKeeps(s: State, id: string)
    requires Steady(s) && id in s.containers
    ensures Steady(Released(s, id))
    ensures Consistent(s) ==> Consistent(Released(s, id))
  {
    SoundAfterRemoving(s, id);
    var s', p := Released(s, id), s.containers[id].pool;
    hide Separated, Accounted, ExpectedCache;
    OnePoolChanged(s, s', p, s'.pools[p]);
  }

  /** Releasing keeps the capacity of every pool. */
  lemma ReleasedCapacity(s: State, id: string, p: string)
    requires Sound(s) && id in s.containers && p in s.pools
    ensures p in Released(s, id).pools
    ensures Footprint(Released(s, id).pools[p]) == Footprint(s.pools[p])
    ensures PoolCapacity(Released(s, id).pools[p]) == PoolCapacity(s.pools[p])
  {
    ReleasedPool(s, id);
  }
}
