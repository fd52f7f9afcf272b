/** The discovered system: CPUs, packages and the bookkeeping of offline CPUs. */
module Sysfs {
  import opened CpuSets
  import opened Topology
  import opened IdText

  const CPU_PATH := "/sys/devices/system/cpu/cpu"

  /** The kernel's side of sysfs: fixed topology files and one writable online file per CPU except CPU 0. */
  class Kernel {
    const topo: Topology
    var online: CPUSet

    ghost predicate Valid()
      reads this
    {
      ValidTopology(topo) && online <= topo.Keys && 0 in online
    }

    constructor (topo: Topology, online: CPUSet)
      ensures this.topo == topo && this.online == online
    {
      this.topo := topo;
      this.online := online;
    }

    /** Write an online file, returning what it held before. */
    method WriteOnline(id: int, desired: bool) returns (current: bool)
      requires Valid() && id in topo && id > 0
      modifies this
      ensures Valid()
      ensures current == (id in old(online))
      ensures online == if desired then old(online) + {id} else old(online) - {id}
    {
      current := id in online;
      online := if desired then online + {id} else online - {id};
    }
  }

  datatype Cpu = Cpu(id: int, pkg: int, threads: CPUSet, online: bool)

  datatype Package = Package(id: int, cpus: CPUSet)

  /** A set of CPUs after the given ones were switched on or off. */
  function Switched(cpus: CPUSet, on: bool, ids: CPUSet): CPUSet {
    if on then cpus + ids else cpus - ids
  }

  /** The CPU records after the given ones were marked online or offline. */
  function Marked(cpus: map<int, Cpu>, online: bool, ids: CPUSet): map<int, Cpu> {
    map c | c in cpus :: if c in ids then cpus[c].(online := online) else cpus[c]
  }

  /** The positive ids among the given ones whose online file differs from what is wanted. */
  function Differing(current: CPUSet, online: bool, ids: CPUSet): CPUSet {
    set c | c in ids && c > 0 && (c in current) != online
  }

  lemma IdsNotNegative(t: Topology)
    requires ValidTopology(t)
    ensures forall c :: c in t ==> 0 <= c
  {
  }

  lemma NoneSwitched(current: CPUSet, offline: CPUSet, cpus: map<int, Cpu>, online: bool)
    ensures Differing(current, online, {}) == {} && Switched(current, online, {} - {0}) == current
    ensures Switched(offline, !online, {} * cpus.Keys) == offline && Marked(cpus, online, {}) == cpus
  {
    assert {} * cpus.Keys == {};
  }

  /** What a switch changes; CPU 0 is left alone. */
  lemma SwitchedIs(current: CPUSet, online: bool, ids: CPUSet)
    ensures Differing(current, online, ids) == set c | c in ids && c > 0 && (c in current) != online
    ensures Switched(current, online, ids - {0}) == if online then current + (ids - {0}) else current - (ids - {0})
  {
  }

  lemma OneSwitch(cpus: CPUSet, on: bool, id: int)
    ensures Switched(cpus, on, {id}) == if on then cpus + {id} else cpus - {id}
  {
  }

  /** Bringing everything online changes what was offline. */
  lemma WokenUp(all: CPUSet, online: CPUSet)
    requires 0 in online && online <= all && forall c :: c in all ==> 0 <= c
    ensures Switched(online, true, all - {0}) == all && Differing(online, true, all) == all - online
    ensures Switched({}, false, {}) == {} && (all - online) * {} == {}
    ensures Marked(map[], true, all - online) == map[]
  {
  }

  lemma PutBack(all: CPUSet, online: CPUSet)
    requires 0 in online && online <= all
    ensures Switched(all, false, all - online - {0}) == online
  {
  }

  lemma OneMoreEntry(current: CPUSet, online: bool, done: CPUSet, id: int)
    requires 0 <= id && id !in done
    ensures Differing(current, online, done + {id}) ==
            Differing(current, online, done) + (if 0 < id && (id in current) != online then {id} else {})
    ensures id == 0 ==> done + {id} - {0} == done - {0}
    ensures 0 < id ==> Switched(current, online, done + {id} - {0}) ==
                       Switched(Switched(current, online, done - {0}), online, {id})
    ensures 0 < id ==> (id in Switched(current, online, done - {0}) <==> id in current)
  {
    var d, d' := Differing(current, online, done), Differing(current, online, done + {id});
    forall c ensures c in d' <==> c in d || (c == id && 0 < id && (id in current) != online) {
    }
  }

  lemma OneMoreMark(cpus: map<int, Cpu>, offline: CPUSet, online: bool, changed: CPUSet, id: int)
    requires id in cpus
    ensures Marked(cpus, online, changed + {id}) ==
            Marked(cpus, online, changed)[id := Marked(cpus, online, changed)[id].(online := online)]
    ensures Switched(offline, !online, (changed + {id}) * cpus.Keys) ==
            Switched(Switched(offline, !online, changed * cpus.Keys), !online, {id})
  {
    assert (changed + {id}) * cpus.Keys == changed * cpus.Keys + {id};
  }

  lemma NoMark(cpus: map<int, Cpu>, offline: CPUSet, online: bool, changed: CPUSet, id: int)
    requires id !in cpus
    ensures Marked(cpus, online, changed + {id}) == Marked(cpus, online, changed)
    ensures (changed + {id}) * cpus.Keys == changed * cpus.Keys
  {
  }

  /** Bookkeeping of offline CPUs that agreed with the kernel agrees again after a switch. */
  lemma SwitchKeepsSync(all: CPUSet, current: CPUSet, offline: CPUSet, cpus: map<int, Cpu>, online: bool, ids: CPUSet)
    requires cpus.Keys == all && ids <= all && forall c :: c in all ==> 0 <= c
    requires offline == all - current && forall c :: c in cpus ==> (cpus[c].online <==> c in current)
    ensures
      var changed, now := Differing(current, online, ids), Switched(current, online, ids - {0});
      && Switched(offline, !online, changed * all) == all - now
      && forall c :: c in cpus ==> (Marked(cpus, online, changed)[c].online <==> c in now)
  {
    var changed, now := Differing(current, online, ids), Switched(current, online, ids - {0});
    var off := Switched(offline, !online, changed * all);
    forall c ensures c in off <==> c in all - now {
    }
  }

  /** The CPUs among the given ones that report a package. */
  function InPackage(cpus: map<int, Cpu>, s: CPUSet, p: int): CPUSet {
    set c | c in s && c in cpus && cpus[c].pkg == p
  }

  lemma InPackageStep(cpus: map<int, Cpu>, s: CPUSet, c: int, p: int)
    requires c in cpus && c !in s
    ensures InPackage(cpus, s + {c}, p) == InPackage(cpus, s, p) + (if cpus[c].pkg == p then {c} else {})
  {
    var after := InPackage(cpus, s + {c}, p);
    forall d ensures d in after <==> d in InPackage(cpus, s, p) || (d == c && cpus[c].pkg == p) {
    }
  }

  /** The id that SetCpusOnline reads back from the path it builds is the id it built it from. */
  method EntryId(id: int) returns (r: int)
    requires 0 <= id
    ensures r == id
  {
    PathRoundTrip(CPU_PATH, id);
    r := GetEnumeratedId(CPU_PATH + Itoa(id));
  }

  class System {
    const kernel: Kernel
    var cpus: map<int, Cpu>
    var packages: map<int, Package>
    var offline: CPUSet

    ghost predicate CpusMatch()
      reads this
    {
      && cpus.Keys == kernel.topo.Keys
      && forall c :: c in cpus ==>
           cpus[c].id == c && cpus[c].pkg == kernel.topo[c].pkg && cpus[c].threads == kernel.topo[c].threads
    }

    ghost predicate PackagesMatch()
      reads this
    {
      && packages.Keys == PackageIds(kernel.topo)
      && forall p :: p in packages ==> packages[p] == Package(p, PackageOf(kernel.topo, p))
    }

    /** The topology was discovered; the offline set may be an old snapshot. */
    ghost predicate Discovered()
      reads this
    {
      ValidTopology(kernel.topo) && CpusMatch() && PackagesMatch()
    }

    /** The offline bookkeeping agrees with the kernel. */
    ghost predicate InSync()
      reads this, kernel
    {
      && offline == kernel.topo.Keys - kernel.online
      && forall c :: c in cpus ==> (cpus[c].online <==> c in kernel.online)
    }

    /** DiscoverSystem */
    constructor Discover(kernel: Kernel)
      requires kernel.Valid()
      modifies kernel
      ensures this.kernel == kernel && kernel.Valid()
      ensures Discovered() && InSync()
      ensures kernel.online == old(kernel.online)
    {
      this.kernel := kernel;
      cpus := map[];
      packages := map[];
      offline := {};
      new;
      DiscoverCpus();
      DiscoverPackages();
    }

    /** SetCpusOnline; no id set means all CPUs. Every write succeeds for an existing CPU. */
    method SetCpusOnline(online: bool, ids: Option<CPUSet>) returns (changed: CPUSet)
      requires kernel.Valid()
      requires ids.Some? ==> ids.value <= kernel.topo.Keys
      modifies this`cpus, this`offline, kernel
      ensures kernel.Valid()
      ensures
        var s := if ids.Some? then ids.value else kernel.topo.Keys;
        && changed == Differing(old(kernel.online), online, s)
        && kernel.online == Switched(old(kernel.online), online, s - {0})
      ensures
        var s := if ids.Some? then ids.value else kernel.topo.Keys;
        && changed == (set c | c in s && c > 0 && (c in old(kernel.online)) != online)
        && kernel.online == if online then old(kernel.online) + (s - {0}) else old(kernel.online) - (s - {0})
      ensures offline == Switched(old(offline), !online, changed * old(cpus).Keys)
      ensures cpus == Marked(old(cpus), online, changed)
      ensures old(CpusMatch() && InSync()) ==> CpusMatch() && InSync()
    {
      var s := if ids.Some? then ids.value else kernel.topo.Keys;
      IdsNotNegative(kernel.topo);
      hide Differing, Switched, Marked, ValidTopology;
      ghost var online0, offline0, cpus0 := kernel.online, offline, cpus;
      changed := {};
      var remaining := s;
      NoneSwitched(online0, offline0, cpus0, online);
      assert s - remaining == {};
      while remaining != {}
        invariant remaining <= s && kernel.Valid()
        invariant changed == Differing(online0, online, s - remaining)
        invariant kernel.online == Switched(online0, online, s - remaining - {0})
        invariant offline == Switched(offline0, !online, changed * cpus0.Keys)
        invariant cpus == Marked(cpus0, online, changed)
      {
        var member := PickAny(remaining);
        ghost var done := s - remaining;
        remaining := remaining - {member};
        assert s - remaining == done + {member};
        OneMoreEntry(online0, online, done, member);
        var id := EntryId(member);
        if id <= 0 {
          continue;
        }
        OneSwitch(kernel.online, online, id);
        OneSwitch(offline, !online, id);
        var current := kernel.WriteOnline(id, online);
        if online != current {
          changed := changed + {id};
          if id in cpus {
            OneMoreMark(cpus0, offline0, online, changed - {id}, id);
            cpus := cpus[id := cpus[id].(online := online)];
            offline := if online then offline - {id} else offline + {id};
          } else {
            NoMark(cpus0, offline0, online, changed - {id}, id);
          }
        }
      }
      assert s - remaining == s;
      SwitchedIs(online0, online, s);
      if old(CpusMatch() && InSync()) {
        SwitchKeepsSync(kernel.topo.Keys, online0, offline0, cpus0, online, s);
      }
    }

    /** discoverCpus: bring everything online, read the topology of every CPU, restore what was offline. */
    method DiscoverCpus()
      requires kernel.Valid()
      requires cpus == map[] && offline == {}
      modifies this`cpus, this`offline, kernel
      ensures kernel.Valid() && kernel.online == old(kernel.online)
      ensures CpusMatch() && InSync()
    {
      IdsNotNegative(kernel.topo);
      WokenUp(kernel.topo.Keys, kernel.online);
      hide Differing, Switched, Marked, ValidTopology;
      var wasOffline := SetCpusOnline(true, None);
      var entries := kernel.topo.Keys;
      while entries != {}
        invariant entries <= kernel.topo.Keys
        invariant kernel.online == kernel.topo.Keys && offline == {}
        invariant cpus.Keys == kernel.topo.Keys - entries
        invariant forall c :: c in cpus ==> cpus[c] == Cpu(c, kernel.topo[c].pkg, kernel.topo[c].threads, true)
      {
        var id := PickAny(entries);
        entries := entries - {id};
        cpus := cpus[id := Cpu(id, kernel.topo[id].pkg, kernel.topo[id].threads, true)];
      }
      PutBack(kernel.topo.Keys, old(kernel.online));
      var restored := SetCpusOnline(false, Some(wasOffline));
    }

    /** discoverPackages */
    method DiscoverPackages()
      requires CpusMatch() && packages == map[]
      modifies this`packages
      ensures PackagesMatch()
      ensures packages.Keys == set c | c in cpus :: cpus[c].pkg
      ensures forall p :: p in packages ==>
                packages[p].id == p && packages[p].cpus == set c | c in cpus && cpus[c].pkg == p
    {
      var remaining := cpus.Keys;
      ghost var done: CPUSet := {};
      while remaining != {}
        invariant done !! remaining && done + remaining == cpus.Keys
        invariant packages.Keys == set c | c in done :: cpus[c].pkg
        invariant forall p :: p in packages ==> packages[p] == Package(p, InPackage(cpus, done, p))
        invariant forall p :: p !in packages ==> InPackage(cpus, done, p) == {}
      {
        var c := PickAny(remaining);
        forall p
          ensures InPackage(cpus, done + {c}, p) ==
                  InPackage(cpus, done, p) + (if cpus[c].pkg == p then {c} else {})
        {
          InPackageStep(cpus, done, c, p);
        }
        done := done + {c};
        remaining := remaining - {c};
        var cpu := cpus[c];
        var pkg := if cpu.pkg in packages then packages[cpu.pkg] else Package(cpu.pkg, {});
        packages := packages[cpu.pkg := pkg.(cpus := pkg.cpus + {cpu.id})];
      }
      forall p ensures InPackage(cpus, done, p) == PackageOf(kernel.topo, p) {
        assert forall c :: c in InPackage(cpus, done, p) <==> c in PackageOf(kernel.topo, p);
      }
    }

    function Offlined(): (r: CPUSet)
      reads this
      ensures r == offline
    {
      offline
    }

    function ThreadCPUSet(c: int): CPUSet
      requires c in cpus
      reads this
    {
      cpus[c].threads
    }
  }
}
