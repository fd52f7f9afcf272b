/** The CPU allocator: memoised topology lookups and the three greedy phases. */
module Allocator {
  import opened CpuSets
  import opened Topology
  import opened Sysfs
  import opened AllocSpec

  /** The allocator's own discovered system and its caches. Its offline set is the one seen at discovery. */
  class SysfsSingleton {
    const sys: System
    var pkgSets: map<int, CPUSet>
    var coreSets: map<int, CPUSet>

    /** Whatever was looked up before, a cached answer is the one a direct lookup gives. */
    ghost predicate CachesAgree()
      reads this, sys
    {
      && (forall p :: p in pkgSets ==> p in sys.packages && pkgSets[p] == sys.packages[p].cpus)
      && (forall c :: c in coreSets ==> c in sys.cpus && coreSets[c] == sys.cpus[c].threads)
    }

    ghost predicate Valid()
      reads this, sys
    {
      sys.Discovered() && NoDeadCore(sys.kernel.topo, sys.offline) && CachesAgree()
    }

    constructor (sys: System)
      requires sys.Discovered() && NoDeadCore(sys.kernel.topo, sys.offline)
      ensures this.sys == sys && Valid()
    {
      this.sys := sys;
      pkgSets := map[];
      coreSets := map[];
    }

    method PackageCPUSet(id: int) returns (cset: CPUSet)
      requires Valid() && id in sys.packages
      modifies this`pkgSets
      ensures Valid()
      ensures cset == sys.packages[id].cpus == PackageOf(sys.kernel.topo, id)
    {
      if id in pkgSets {
        return pkgSets[id];
      }
      cset := sys.packages[id].cpus;
      pkgSets := pkgSets[id := cset];
    }

    /** One lookup fills the cache for every thread of the core. */
    method CoreCPUSet(id: int) returns (cset: CPUSet)
      requires Valid() && id in sys.cpus
      modifies this`coreSets
      ensures Valid()
      ensures cset == sys.cpus[id].threads == sys.kernel.topo[id].threads
    {
      if id in coreSets {
        return coreSets[id];
      }
      cset := sys.ThreadCPUSet(id);
      var slice := SortedSlice(cset);
      for k := 0 to |slice|
        invariant Valid()
      {
        assert slice[k] in slice;
        coreSets := coreSets[slice[k] := cset];
      }
    }
  }

  lemma PackageUnit(lookups: SysfsSingleton, id: int)
    requires lookups.Valid() && id in PackageUnits(lookups.sys.kernel.topo, lookups.sys.offline)
    ensures id in lookups.sys.packages
    ensures PackageUnits(lookups.sys.kernel.topo, lookups.sys.offline)[id] ==
            lookups.sys.packages[id].cpus - lookups.sys.offline
  {
  }

  lemma CoreUnit(lookups: SysfsSingleton, id: int)
    requires lookups.Valid() && id in CoreUnits(lookups.sys.kernel.topo, lookups.sys.offline)
    ensures id in lookups.sys.cpus
    ensures CoreUnits(lookups.sys.kernel.topo, lookups.sys.offline)[id] ==
            lookups.sys.cpus[id].threads - lookups.sys.offline
  {
  }

  lemma ValidLookups(lookups: SysfsSingleton)
    requires lookups.Valid()
    ensures ValidTopology(lookups.sys.kernel.topo) && NoDeadCore(lookups.sys.kernel.topo, lookups.sys.offline)
  {
  }

  class CpuAllocator {
    const lookups: SysfsSingleton
    var from: CPUSet
    var cnt: int
    var result: CPUSet

    constructor (lookups: SysfsSingleton, from: CPUSet, cnt: int)
      ensures this.lookups == lookups
      ensures this.from == from && this.cnt == cnt && result == {}
    {
      this.lookups := lookups;
      this.from := from;
      this.cnt := cnt;
      result := {};
    }

    method Take(cset: CPUSet)
      modifies this`from, this`cnt, this`result
      ensures from == old(from) - cset && cnt == old(cnt) - |cset| && result == old(result) + cset
    {
      result := result + cset;
      from := from - cset;
      cnt := cnt - |cset|;
    }

    /** The packages whose online CPUs can all be taken, sorted by id. */
    method PickIdlePackages() returns (ids: seq<int>)
      requires lookups.Valid()
      modifies lookups
      ensures lookups.Valid()
      ensures VisitOrder(PackageUnits(lookups.sys.kernel.topo, lookups.sys.offline), from, ids)
    {
      var offline := lookups.sys.Offlined();
      ghost var units := PackageUnits(lookups.sys.kernel.topo, lookups.sys.offline);
      var picked: CPUSet := {};
      var remaining := lookups.sys.packages.Keys;
      while remaining != {}
        invariant lookups.Valid() && remaining <= lookups.sys.packages.Keys
        invariant forall k :: k in picked <==> k in units && k !in remaining && units[k] <= from
      {
        var id := PickAny(remaining);
        remaining := remaining - {id};
        var cset := lookups.PackageCPUSet(id);
        cset := cset - offline;
        if cset * from == cset {
          picked := picked + {id};
        }
      }
      ids := SortedSlice(picked);
    }

    /** takeIdlePackages */
    method TakeIdlePackages()
      requires lookups.Valid()
      modifies this`from, this`cnt, this`result, lookups
      ensures lookups.Valid()
      ensures Moved(old(from), old(cnt), old(result), from, cnt, result)
      ensures FirstFit(old(PackageUnits(lookups.sys.kernel.topo, lookups.sys.offline)), old(from), old(cnt),
          old(from) - from)
    {
      hide *;
      ValidLookups(lookups);
      var offline := lookups.sys.Offlined();
      ghost var from0, cnt0, result0 := from, cnt, result;
      ghost var units := PackageUnits(lookups.sys.kernel.topo, lookups.sys.offline);
      PackagesSeparate(lookups.sys.kernel.topo, offline);
      var ids := PickIdlePackages();
      ProgressStart(units, ids, from, cnt, result);
      var i := 0;
      while i < |ids|
        invariant 0 <= i <= |ids| && lookups.Valid()
        invariant Progress(units, ids, i, from0, cnt0, result0, from, cnt, result)
      {
        var id := ids[i];
        ProgressStep(units, ids, i, from0, cnt0, result0, from, cnt, result);
        PackageUnit(lookups, id);
        var cset := lookups.PackageCPUSet(id);
        cset := cset - offline;
        i := i + 1;
        if cnt >= |cset| {
          Take(cset);
          if cnt == 0 {
            break;
          }
        }
      }
      ProgressEnd(units, ids, i, from0, cnt0, result0, from, cnt, result);
    }

    /** The first online threads of the cores whose online threads can all be taken, sorted by id. */
    method PickIdleCores() returns (ids: seq<int>)
      requires lookups.Valid()
      modifies lookups
      ensures lookups.Valid()
      ensures VisitOrder(CoreUnits(lookups.sys.kernel.topo, lookups.sys.offline), from, ids)
    {
      var offline := lookups.sys.Offlined();
      ghost var units := CoreUnits(lookups.sys.kernel.topo, lookups.sys.offline);
      var picked: CPUSet := {};
      var remaining := lookups.sys.cpus.Keys;
      while remaining != {}
        invariant lookups.Valid() && remaining <= lookups.sys.cpus.Keys
        invariant forall k :: k in picked <==> k in units && k !in remaining && units[k] <= from
      {
        var id := PickAny(remaining);
        remaining := remaining - {id};
        var cset := lookups.CoreCPUSet(id);
        cset := cset - offline;
        assert cset != {};
        if cset * from == cset && Min(cset) == id {
          picked := picked + {id};
        }
      }
      ids := SortedSlice(picked);
    }

    /** takeIdleCores */
    method TakeIdleCores()
      requires lookups.Valid()
      modifies this`from, this`cnt, this`result, lookups
      ensures lookups.Valid()
      ensures Moved(old(from), old(cnt), old(result), from, cnt, result)
      ensures FirstFit(old(CoreUnits(lookups.sys.kernel.topo, lookups.sys.offline)), old(from), old(cnt),
          old(from) - from)
    {
      hide *;
      ValidLookups(lookups);
      var offline := lookups.sys.Offlined();
      ghost var from0, cnt0, result0 := from, cnt, result;
      ghost var units := CoreUnits(lookups.sys.kernel.topo, lookups.sys.offline);
      CoresSeparate(lookups.sys.kernel.topo, offline);
      var ids := PickIdleCores();
      ProgressStart(units, ids, from, cnt, result);
      var i := 0;
      while i < |ids|
        invariant 0 <= i <= |ids| && lookups.Valid()
        invariant Progress(units, ids, i, from0, cnt0, result0, from, cnt, result)
      {
        var id := ids[i];
        ProgressStep(units, ids, i, from0, cnt0, result0, from, cnt, result);
        CoreUnit(lookups, id);
        var cset := lookups.CoreCPUSet(id);
        cset := cset - offline;
        i := i + 1;
        if cnt >= |cset| {
          Take(cset);
          if cnt == 0 {
            break;
          }
        }
      }
      ProgressEnd(units, ids, i, from0, cnt0, result0, from, cnt, result);
    }

    /** The known online threads that can be taken. */
    method PickThreads() returns (cores: CPUSet)
      requires lookups.Valid()
      ensures cores == Usable(lookups.sys.kernel.topo, lookups.sys.offline, from)
    {
      cores := lookups.sys.cpus.Keys * (from - lookups.sys.Offlined());
    }

    /** takeIdleThreads: the preference order is left open, every permutation is allowed. */
    method TakeIdleThreads()
      requires lookups.Valid() && cnt != 0
      modifies this`from, this`cnt, this`result
      ensures Moved(old(from), old(cnt), old(result), from, cnt, result)
      ensures ThreadsTaken(lookups.sys.kernel.topo, lookups.sys.offline, old(from), old(cnt), from, cnt)
    {
      ghost var from0, cnt0, result0 := from, cnt, result;
      ghost var usable := Usable(lookups.sys.kernel.topo, lookups.sys.offline, from);
      var cores := PickThreads();
      ThreadStart(usable, from, cnt, result);
      while cores != {}
        invariant cnt == 0 ==> cores == {} && cnt0 != 0
        invariant ThreadProgress(usable, cores, from0, cnt0, result0, from, cnt, result)
      {
        var id := PickAny(cores);
        ThreadStep(usable, cores, from0, cnt0, result0, from, cnt, result, id);
        cores := cores - {id};
        Take({id});
        if cnt == 0 {
          break;
        }
      }
      ThreadEnd(usable, cores, from0, cnt0, result0, from, cnt, result);
    }

    /** allocate: with too few usable CPUs the source is drained and nothing is returned, without an error. */
    method Allocate() returns (r: CPUSet)
      requires lookups.Valid() && result == {}
      modifies this`from, this`cnt, this`result, lookups
      ensures lookups.Valid()
      ensures Allocated(lookups.sys.kernel.topo, lookups.sys.offline, old(from), old(cnt), r, from)
    {
      hide *;
      ValidLookups(lookups);
      ghost var topo, offline, from0, cnt0 := lookups.sys.kernel.topo, lookups.sys.offline, from, cnt;
      TakeIdlePackages();
      ghost var from1, cnt1, result1 := from, cnt, result;
      if cnt == 0 {
        AfterPackages(topo, offline, from0, cnt0, from1, result1);
        return result;
      }
      TakeIdleCores();
      ghost var from2, cnt2, result2 := from, cnt, result;
      if cnt == 0 {
        AfterCores(topo, offline, from0, cnt0, from1, cnt1, result1, from2, result2);
        return result;
      }
      TakeIdleThreads();
      AfterThreads(topo, offline, from0, cnt0, from1, cnt1, result1, from2, cnt2, result2, from, cnt, result);
      if cnt == 0 {
        return result;
      }
      return {};
    }
  }

  /** AllocateCpus, with the source set passed in and its new value passed out. */
  method AllocateCpus(lookups: SysfsSingleton, from: CPUSet, cnt: int)
    returns (result: CPUSet, left: CPUSet, ok: bool)
    requires lookups.Valid()
    modifies lookups
    ensures lookups.Valid()
    ensures Outcome(lookups.sys.kernel.topo, lookups.sys.offline, from, cnt, result, left, ok)
  {
    if |from| < cnt {
      return {}, from, false;
    } else if |from| == cnt {
      return from, {}, true;
    }
    var a := new CpuAllocator(lookups, from, cnt);
    result := a.Allocate();
    left := a.from;
    ok := true;
  }

  /** ReleaseCpus keeps all but cnt CPUs in its result, leaving the released ones in the source. */
  method ReleaseCpus(lookups: SysfsSingleton, from: CPUSet, cnt: int)
    returns (result: CPUSet, left: CPUSet, ok: bool)
    requires lookups.Valid()
    modifies lookups
    ensures lookups.Valid()
    ensures Outcome(lookups.sys.kernel.topo, lookups.sys.offline, from, |from| - cnt, result, left, ok)
    ensures 0 <= cnt <= |from| && from <= Usable(lookups.sys.kernel.topo, lookups.sys.offline, from) ==>
              ok && result !! left && result + left == from && |left| == cnt
  {
    hide *;
    ValidLookups(lookups);
    result, left, ok := AllocateCpus(lookups, from, |from| - cnt);
    if 0 <= cnt <= |from| && from <= Usable(lookups.sys.kernel.topo, lookups.sys.offline, from) {
      ReleasedAll(lookups.sys.kernel.topo, lookups.sys.offline, from, cnt, result, left, ok);
    }
  }

  lemma ReleasedAll(t: Topology, offline: CPUSet, from: CPUSet, cnt: int, result: CPUSet, left: CPUSet, ok: bool)
    requires NoDeadCore(t, offline) && 0 <= cnt <= |from| && from <= Usable(t, offline, from)
    requires Outcome(t, offline, from, |from| - cnt, result, left, ok)
    ensures ok && result !! left && result + left == from && |left| == cnt
  {
    hide *;
    ExactWhenEnough(t, offline, from, |from| - cnt, result, left, ok);
    SubsetSize(from, Usable(t, offline, from));
    UnionSize(result, left);
  }
}
