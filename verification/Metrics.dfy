/** The cache of per-pool metrics. Publishing it to the API server is not part of this model. */
module PoolMetrics {
  import opened CpuSets

  datatype PoolData = PoolData(name: string, shared: CPUSet, exclusive: CPUSet, capacity: int, usage: int)

  class Metrics {
    var pools: map<string, PoolData>

    constructor (fetched: map<string, PoolData>)
      ensures pools == fetched
    {
      pools := fetched;
    }

    method UpdatePool(name: string, shared: CPUSet, exclusive: CPUSet, capacity: int, usage: int)
      modifies this
      ensures pools == old(pools)[name := PoolData(name, shared, exclusive, capacity, usage)]
    {
      pools := pools[name := PoolData(name, shared, exclusive, capacity, usage)];
    }

    method DeletePool(name: string) returns (found: bool)
      modifies this
      ensures found <==> name in old(pools)
      ensures pools == old(pools) - {name}
    {
      found := name in pools;
      if found {
        pools := pools - {name};
      }
    }

    method DeleteAllPools()
      modifies this
      ensures pools == map[]
    {
      pools := map[];
    }
  }
}
