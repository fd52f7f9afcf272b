/** The CPU topology of a node: hyperthread siblings and physical packages. */
module Topology {
  import opened CpuSets

  datatype CpuInfo = CpuInfo(pkg: int, threads: CPUSet)

  type Topology = map<int, CpuInfo>

  /** What the kernel's topology files give: ids are non-negative, CPU 0 exists, and being a
      sibling is an equivalence whose classes lie inside one package. */
  ghost predicate ValidTopology(t: Topology) {
    && 0 in t
    && (forall c :: c in t ==> 0 <= c && c in t[c].threads && t[c].threads <= t.Keys)
    && (forall c, d :: c in t && d in t[c].threads ==>
          t[d].threads == t[c].threads && t[d].pkg == t[c].pkg)
  }

  /** The CPUs of a physical package. */
  function PackageOf(t: Topology, p: int): CPUSet {
    set c | c in t && t[c].pkg == p
  }

  function PackageIds(t: Topology): CPUSet {
    set c | c in t :: t[c].pkg
  }

  /** All hyperthread siblings of the given CPUs, the CPUs themselves only when a sibling of another one. */
  function Siblings(t: Topology, s: CPUSet): CPUSet {
    set c, d | c in s && c in t && d in t[c].threads && d != c :: d
  }

  /** Every core keeps a thread that is not offline. */
  ghost predicate NoDeadCore(t: Topology, offline: CPUSet) {
    forall c :: c in t ==> t[c].threads - offline != {}
  }
}
