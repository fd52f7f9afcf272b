/** What preparing a configuration means: the order-by-order scan that prepareConfig performs, and
    the order-free conditions and CPU sets it amounts to. */
module Preparation {
  import opened CpuSets
  import opened Topology
  import opened NodeConfigs

  /** The node: its topology and the CPUs the kernel keeps isolated. */
  datatype Machine = Machine(topo: Topology, isolated: CPUSet)

  ghost predicate ValidMachine(m: Machine) {
    ValidTopology(m.topo) && m.isolated <= m.topo.Keys
  }

  // Iteration orders

  ghost predicate Distinct(s: seq<string>) {
    forall i, j :: 0 <= i < j < |s| ==> s[i] != s[j]
  }

  ghost function Members(s: seq<string>): set<string> {
    set x | x in s
  }

  /** An order in which a map with these keys can be iterated. */
  ghost predicate IsOrder(order: seq<string>, keys: set<string>) {
    Distinct(order) && Members(order) == keys
  }

  ghost function AnyOrder(keys: set<string>): (order: seq<string>)
    ensures IsOrder(order, keys)
  {
    if keys == {} then [] else
    var k := Pick(keys);
    var rest := AnyOrder(keys - {k});
    assert Members(rest + [k]) == keys by {
      assert forall x :: x in rest + [k] <==> x in Members(rest) || x == k;
    }
    rest + [k]
  }

  // The reserved pool

  /** The lowest thread of a core stands for the core. */
  function CoreKey(t: Topology, c: int): int
    requires ValidTopology(t) && c in t
  {
    Min(t[c].threads)
  }

  /** CPUs are reserved core by core, cores by their lowest thread, threads in a core by id. */
  ghost predicate Before(t: Topology, c: int, d: int)
    requires ValidTopology(t) && c in t && d in t
  {
    CoreKey(t, c) < CoreKey(t, d) || (CoreKey(t, c) == CoreKey(t, d) && c < d)
  }

  ghost function Earlier(t: Topology, d: int): CPUSet
    requires ValidTopology(t) && d in t
  {
    set c | c in t && Before(t, c, d)
  }

  /** The first n CPUs in reservation order. */
  ghost function FirstCpus(t: Topology, n: int): CPUSet
    requires ValidTopology(t)
  {
    set c | c in t && |Earlier(t, c)| < n
  }

  /** With every CPU of the set all earlier ones are in it. */
  ghost predicate DownClosed(t: Topology, s: CPUSet)
    requires ValidTopology(t)
  {
    s <= t.Keys && forall c, d :: c in t && d in s && Before(t, c, d) ==> c in s
  }

  lemma DownClosedIsFirst(t: Topology, s: CPUSet)
    requires ValidTopology(t) && DownClosed(t, s)
    ensures s == FirstCpus(t, |s|)
  {
    forall c | c in t ensures c in s <==> |Earlier(t, c)| < |s| {
      if c in s {
        EarlierInside(t, s, c);
      } else {
        EarlierOutside(t, s, c);
      }
    }
  }

  lemma EarlierInside(t: Topology, s: CPUSet, c: int)
    requires ValidTopology(t) && DownClosed(t, s) && c in s
    ensures c in t && |Earlier(t, c)| < |s|
  {
    assert Earlier(t, c) <= s && c !in Earlier(t, c);
    var before := Earlier(t, c);
    hide *;
    StrictlySmaller(before, s, c);
  }

  lemma EarlierOutside(t: Topology, s: CPUSet, c: int)
    requires ValidTopology(t) && DownClosed(t, s) && c in t && c !in s
    ensures |s| <= |Earlier(t, c)|
  {
    assert s <= Earlier(t, c);
    var before := Earlier(t, c);
    hide *;
    SubsetSize(s, before);
  }

  /** The first CPUs include CPU 0 if there are any, and split at most one core. */
  lemma FirstCpusShape(t: Topology, n: int, c: int, d: int)
    requires ValidTopology(t)
    ensures 1 <= n ==> 0 in FirstCpus(t, n)
    ensures n <= 0 ==> FirstCpus(t, n) == {}
    ensures
      var s := FirstCpus(t, n);
      (c in t && d in t
       && t[c].threads * s != {} && !(t[c].threads <= s)
       && t[d].threads * s != {} && !(t[d].threads <= s))
      ==> t[c].threads == t[d].threads
  {
    assert Earlier(t, 0) == {};
    var s := FirstCpus(t, n);
    if c in t && d in t && t[c].threads * s != {} && !(t[c].threads <= s)
       && t[d].threads * s != {} && !(t[d].threads <= s) {
      NoLaterCore(t, n, c, d);
      NoLaterCore(t, n, d, c);
      assert CoreKey(t, c) in t[c].threads && CoreKey(t, d) in t[d].threads;
    }
  }

  lemma NoLaterCore(t: Topology, n: int, c: int, d: int)
    requires ValidTopology(t) && c in t && d in t
    requires !(t[c].threads <= FirstCpus(t, n)) && t[d].threads * FirstCpus(t, n) != {}
    ensures CoreKey(t, d) <= CoreKey(t, c)
  {
    if CoreKey(t, c) < CoreKey(t, d) {
      var y := NotSubset(t[c].threads, FirstCpus(t, n));
      var x := Pick(t[d].threads * FirstCpus(t, n));
      assert Before(t, y, x);
      assert Earlier(t, y) <= Earlier(t, x);
      SubsetSize(Earlier(t, y), Earlier(t, x));
    }
  }

  /** The cores of the first i of the sorted CPU ids. */
  ghost function CoresOf(t: Topology, ids: seq<int>, i: int): CPUSet
    requires ValidTopology(t) && 0 <= i <= |ids|
  {
    set c | c in t && CoreKey(t, c) in ids[..i]
  }

  lemma KeyVisited(t: Topology, ids: seq<int>, i: int, k: int)
    requires Ascending(ids) && 0 <= i < |ids| && k in ids && k < ids[i]
    ensures k in ids[..i]
  {
    var j :| 0 <= j < |ids| && ids[j] == k;
    assert j < i;
    assert ids[..i][j] == k;
  }

  /** Visiting one more CPU adds its whole core, or nothing if the core was added already. */
  lemma NextCore(t: Topology, ids: seq<int>, i: int)
    requires ValidTopology(t) && Ascending(ids) && 0 <= i < |ids| && forall c :: c in ids <==> c in t
    ensures CoresOf(t, ids, i + 1) == CoresOf(t, ids, i) + (t[ids[i]].threads - CoresOf(t, ids, i))
    ensures t[ids[i]].threads - CoresOf(t, ids, i) == {} ||
            (CoreKey(t, ids[i]) == ids[i] && t[ids[i]].threads !! CoresOf(t, ids, i))
  {
    var id := ids[i];
    assert id in ids && ids[..i + 1] == ids[..i] + [id];
    var before, after := CoresOf(t, ids, i), CoresOf(t, ids, i + 1);
    if CoreKey(t, id) < id {
      assert CoreKey(t, id) in t[id].threads;
      KeyVisited(t, ids, i, CoreKey(t, id));
    }
    assert forall d :: d in t[id].threads ==> CoreKey(t, d) == CoreKey(t, id);
    forall c ensures c in after <==> c in before || c in t[id].threads {
      if c in after && c !in before {
        assert CoreKey(t, c) == id && id in t[c].threads;
      }
    }
  }

  /** Whole cores in order, and the first threads of the next one, are the first CPUs. */
  lemma CoresAreFirst(t: Topology, ids: seq<int>, i: int, part: CPUSet)
    requires ValidTopology(t) && Ascending(ids) && 0 <= i <= |ids| && forall c :: c in ids <==> c in t
    requires part == {} || (i < |ids| && CoreKey(t, ids[i]) == ids[i] && part <= t[ids[i]].threads)
    requires forall c, d :: c in part && d in t && d in t[c].threads && d < c ==> d in part
    ensures CoresOf(t, ids, i) + part == FirstCpus(t, |CoresOf(t, ids, i) + part|)
  {
    var s := CoresOf(t, ids, i) + part;
    forall c | c in s ensures c in t {
      if c in part { assert c in t[ids[i]].threads; }
    }
    forall c, d | c in t && d in s && Before(t, c, d) ensures c in s {
      FirstIsClosed(t, ids, i, part, c, d);
    }
    DownClosedIsFirst(t, s);
  }

  lemma FirstIsClosed(t: Topology, ids: seq<int>, i: int, part: CPUSet, c: int, d: int)
    requires ValidTopology(t) && Ascending(ids) && 0 <= i <= |ids| && forall c :: c in ids <==> c in t
    requires part == {} || (i < |ids| && CoreKey(t, ids[i]) == ids[i] && part <= t[ids[i]].threads)
    requires forall c, d :: c in part && d in t && d in t[c].threads && d < c ==> d in part
    requires c in t && d in t && d in CoresOf(t, ids, i) + part && Before(t, c, d)
    ensures c in CoresOf(t, ids, i) + part
  {
    var k, l := CoreKey(t, c), CoreKey(t, d);
    assert k in t[c].threads && k in ids;
    if d in CoresOf(t, ids, i) {
      var j :| 0 <= j < i && ids[..i][j] == l;
      assert ids[j] == l;
      if k < l {
        KeyVisited(t, ids, j, k);
        var j' :| 0 <= j' < j && ids[..j][j'] == k;
        assert ids[..i][j'] == k;
      }
    } else {
      assert t[d].threads == t[ids[i]].threads;
      if k < l {
        KeyVisited(t, ids, i, k);
      } else {
        assert t[c].threads == t[k].threads == t[l].threads == t[d].threads;
      }
    }
  }

  /** The search for reserved CPUs after i CPUs were visited without filling the request. */
  ghost predicate Reserving(t: Topology, ids: seq<int>, i: int, count: int, cset: CPUSet, ncpu: int)
    requires ValidTopology(t)
  {
    && 0 <= i <= |ids| && Ascending(ids) && (forall c :: c in ids <==> c in t)
    && cset == CoresOf(t, ids, i) && ncpu == count - |cset| && 0 <= ncpu
  }

  /** What is reserved in the end. */
  ghost predicate Reserved(t: Topology, count: int, cset: CPUSet, ok: bool)
    requires ValidTopology(t)
  {
    if count <= |t| then ok && cset == FirstCpus(t, count) && |cset| == count else !ok
  }

  lemma ReservingStart(t: Topology, ids: seq<int>, count: int)
    requires ValidTopology(t) && 0 <= count && Ascending(ids) && forall c :: c in ids <==> c in t
    ensures Reserving(t, ids, 0, count, {}, count)
  {
  }

  lemma ReservingCore(t: Topology, ids: seq<int>, i: int, count: int, cset: CPUSet, ncpu: int)
    requires ValidTopology(t) && Reserving(t, ids, i, count, cset, ncpu) && i < |ids|
    requires |t[ids[i]].threads - cset| <= ncpu
    ensures Reserving(t, ids, i + 1, count, cset + (t[ids[i]].threads - cset), ncpu - |t[ids[i]].threads - cset|)
  {
    NextCore(t, ids, i);
    UnionSize(cset, t[ids[i]].threads - cset);
  }

  lemma ReservingPart(t: Topology, ids: seq<int>, i: int, count: int, cset: CPUSet, ncpu: int)
    requires ValidTopology(t) && Reserving(t, ids, i, count, cset, ncpu) && i < |ids|
    requires ncpu < |t[ids[i]].threads - cset|
    ensures Reserved(t, count, cset + Smallest(t[ids[i]].threads - cset, ncpu), true)
  {
    var tset := t[ids[i]].threads - cset;
    var part := Smallest(tset, ncpu);
    NextCore(t, ids, i);
    SmallestSize(tset, ncpu);
    CoresAreFirst(t, ids, i, part);
    UnionSize(cset, part);
    assert ids[i] in ids;
    SubsetSize(cset + part, t.Keys);
  }

  /** The threads of a CPU's core that are not reserved yet. */
  ghost predicate Unreserved(t: Topology, c: int, cset: CPUSet, tset: CPUSet) {
    c in t && tset == t[c].threads - cset
  }

  /** The next CPU brings what is missing of its core: all of it, or as much as is still wanted. */
  lemma ReservingNext(t: Topology, ids: seq<int>, i: int, count: int, cset: CPUSet, ncpu: int, tset: CPUSet)
    requires ValidTopology(t) && Reserving(t, ids, i, count, cset, ncpu) && 0 <= i < |ids| && 0 <= ncpu
    requires Unreserved(t, ids[i], cset, tset)
    ensures ncpu < |tset| ==> Reserved(t, count, cset + Smallest(tset, ncpu), true)
    ensures |tset| <= ncpu ==> Reserving(t, ids, i + 1, count, cset + tset, ncpu - |tset|)
  {
    assert tset == t[ids[i]].threads - cset;
    hide *;
    if ncpu < |tset| {
      ReservingPart(t, ids, i, count, cset, ncpu);
    } else {
      ReservingCore(t, ids, i, count, cset, ncpu);
    }
  }

  lemma ReservingFilled(t: Topology, ids: seq<int>, i: int, count: int, cset: CPUSet, ncpu: int)
    requires ValidTopology(t) && Reserving(t, ids, i, count, cset, ncpu)
    requires ncpu == 0 || i == |ids|
    ensures Reserved(t, count, cset, ncpu <= 0)
  {
    CoresAreFirst(t, ids, i, {});
    assert cset + {} == cset;
    SubsetSize(cset, t.Keys);
    if i == |ids| {
      AllCores(t, ids);
    }
  }

  lemma AllCores(t: Topology, ids: seq<int>)
    requires ValidTopology(t) && forall c :: c in ids <==> c in t
    ensures CoresOf(t, ids, |ids|) == t.Keys
  {
    assert ids[..|ids|] == ids;
    forall c | c in t ensures c in CoresOf(t, ids, |ids|) {
      assert CoreKey(t, c) in t[c].threads;
    }
  }

  /** The configuration with the reserved pool checked or set up, if that is possible. */
  ghost function WithReserved(m: Machine, cfg: NodeConfig): Option<NodeConfig>
    requires ValidMachine(m)
  {
    if RESERVED !in cfg then None else
    var rc := cfg[RESERVED];
    if rc.cpus.Some? && rc.cpus.value != {} then
      if 0 in rc.cpus.value then Some(cfg) else None
    else if rc.cpuCount > |m.topo| then None
    else Some(cfg[RESERVED := rc.(cpus := Some(FirstCpus(m.topo, rc.cpuCount)))])
  }

  // The scan

  /** Whether a configuration, its reserved pool set up, can be scanned. */
  ghost predicate Scannable(cfg: NodeConfig) {
    forall p :: p in cfg && !Claims(cfg[p]) ==> cfg[p].cpus.Some?
  }

  /** The CPUs a pool names; none for a leftover claimant. */
  ghost function CpusOf(cfg: NodeConfig, p: string): CPUSet
    requires p in cfg
  {
    if !Claims(cfg[p]) && cfg[p].cpus.Some? then cfg[p].cpus.value else {}
  }

  /** The siblings that have to go offline for an HT-free pool. */
  ghost function SibsOf(m: Machine, cfg: NodeConfig, p: string): CPUSet
    requires p in cfg
  {
    if cfg[p].disableHT then Siblings(m.topo, CpusOf(cfg, p)) else {}
  }

  /** The CPUs of an isolation class. */
  ghost function Class(m: Machine, isolated: bool): CPUSet {
    if isolated then m.isolated else m.topo.Keys - m.isolated
  }

  /** Loop state of prepareConfig: unclaimed isolated and other CPUs, CPUs to take offline, and claimants by
      isolation. */
  datatype Scan = Scan(isolated: CPUSet, available: CPUSet, offlined: CPUSet, leftover: map<bool, string>)

  function Claimant(s: Scan, isolated: bool): string {
    if isolated in s.leftover then s.leftover[isolated] else ""
  }

  ghost function ScanStart(m: Machine): Scan {
    Scan(m.isolated, m.topo.Keys - m.isolated, {}, map[])
  }

  ghost function ScanStep(m: Machine, cfg: NodeConfig, s: Scan, p: string): Option<Scan>
    requires p in cfg
  {
    var pc := cfg[p];
    if Claims(pc) then
      if Claimant(s, pc.isolated) != "" then None else Some(s.(leftover := s.leftover[pc.isolated := p]))
    else
      var cpus := CpusOf(cfg, p);
      if !(cpus <= if pc.isolated then s.isolated else s.available) then None else
      var s' := if pc.isolated then s.(isolated := s.isolated - cpus) else s.(available := s.available - cpus);
      if !pc.disableHT then Some(s') else
      var siblings := Siblings(m.topo, cpus);
      if !(siblings <= s'.available) && !(siblings <= s'.offlined) then None
      else Some(s'.(available := s'.available - siblings, offlined := s'.offlined + siblings))
  }

  /** The scan of the pools in the given order; none if one of them is rejected. */
  ghost function ScanAll(m: Machine, cfg: NodeConfig, order: seq<string>): Option<Scan>
    requires forall p :: p in order ==> p in cfg
  {
    if order == [] then Some(ScanStart(m)) else
    var last := order[|order| - 1];
    match ScanAll(m, cfg, order[..|order| - 1])
    case None => None
    case Some(s) => ScanStep(m, cfg, s, last)
  }

  lemma {:induction false} RejectedForGood(m: Machine, cfg: NodeConfig, order: seq<string>, more: seq<string>)
    requires forall p :: p in order + more ==> p in cfg
    requires ScanAll(m, cfg, order).None?
    ensures ScanAll(m, cfg, order + more).None?
  {
    if more == [] {
      assert order + more == order;
    } else {
      var all := order + more;
      assert all[..|all| - 1] == order + more[..|more| - 1];
      RejectedForGood(m, cfg, order, more[..|more| - 1]);
    }
  }

  // What the scan amounts to

  ghost function Taken(cfg: NodeConfig, names: set<string>, isolated: bool): CPUSet {
    set p, c | p in names && p in cfg && cfg[p].isolated == isolated && c in CpusOf(cfg, p) :: c
  }

  ghost function ToOffline(m: Machine, cfg: NodeConfig, names: set<string>): CPUSet {
    set p, c | p in names && p in cfg && c in SibsOf(m, cfg, p) :: c
  }

  /** Named CPUs lie in their isolation class and are pairwise disjoint; the siblings of HT-free pools
      are not isolated and no pool names them. */
  ghost predicate Fits(m: Machine, cfg: NodeConfig, names: set<string>)
    requires names <= cfg.Keys
  {
    && (forall p :: p in names ==> CpusOf(cfg, p) <= Class(m, cfg[p].isolated))
    && (forall p, q :: p in names && q in names && p != q ==> CpusOf(cfg, p) !! CpusOf(cfg, q))
    && (forall p :: p in names ==> SibsOf(m, cfg, p) <= Class(m, false))
    && (forall p, q :: p in names && q in names ==> SibsOf(m, cfg, p) !! CpusOf(cfg, q))
  }

  /** One more pool fits with the ones that fit already. */
  ghost predicate FitsWith(m: Machine, cfg: NodeConfig, names: set<string>, x: string)
    requires names <= cfg.Keys && x in cfg
  {
    && CpusOf(cfg, x) <= Class(m, cfg[x].isolated)
    && (forall q :: q in names ==> CpusOf(cfg, x) !! CpusOf(cfg, q))
    && (forall q :: q in names ==> SibsOf(m, cfg, q) !! CpusOf(cfg, x))
    && SibsOf(m, cfg, x) <= Class(m, false)
    && SibsOf(m, cfg, x) !! CpusOf(cfg, x)
    && (forall q :: q in names ==> SibsOf(m, cfg, x) !! CpusOf(cfg, q))
  }

  lemma FitsSplit(m: Machine, cfg: NodeConfig, names: set<string>, x: string)
    requires names <= cfg.Keys && x in cfg && x !in names
    ensures Fits(m, cfg, names + {x}) <==> Fits(m, cfg, names) && FitsWith(m, cfg, names, x)
  {
    if Fits(m, cfg, names + {x}) {
      assert x in names + {x};
      forall q | q in names
        ensures CpusOf(cfg, x) !! CpusOf(cfg, q) && SibsOf(m, cfg, q) !! CpusOf(cfg, x) &&
            SibsOf(m, cfg, x) !! CpusOf(cfg, q)
      {
        assert q in names + {x};
      }
      forall p | p in names ensures p in names + {x} { }
    }
  }

  lemma TakenSplit(m: Machine, cfg: NodeConfig, names: set<string>, x: string, isolated: bool)
    requires x in cfg
    ensures Taken(cfg, names + {x}, isolated) ==
            Taken(cfg, names, isolated) + (if cfg[x].isolated == isolated then CpusOf(cfg, x) else {})
    ensures ToOffline(m, cfg, names + {x}) == ToOffline(m, cfg, names) + SibsOf(m, cfg, x)
  {
    var a, a' := Taken(cfg, names, isolated), Taken(cfg, names + {x}, isolated);
    forall c ensures c in a' <==> c in a || (cfg[x].isolated == isolated && c in CpusOf(cfg, x)) {
      if c in a {
        var p :| p in names && p in cfg && cfg[p].isolated == isolated && c in CpusOf(cfg, p);
        assert p in names + {x};
      } else if cfg[x].isolated == isolated && c in CpusOf(cfg, x) {
        assert x in names + {x};
      }
    }
    var o, o' := ToOffline(m, cfg, names), ToOffline(m, cfg, names + {x});
    forall c ensures c in o' <==> c in o || c in SibsOf(m, cfg, x) {
      if c in o {
        var p :| p in names && p in cfg && c in SibsOf(m, cfg, p);
        assert p in names + {x};
      } else if c in SibsOf(m, cfg, x) {
        assert x in names + {x};
      }
    }
  }

  /** The CPUs of an isolation class that pools which name their CPUs leave over. */
  ghost function Leftover(m: Machine, cfg: NodeConfig, names: set<string>, isolated: bool): CPUSet {
    if isolated then m.isolated - Taken(cfg, names, true)
    else m.topo.Keys - m.isolated - Taken(cfg, names, false) - ToOffline(m, cfg, names)
  }

  /** The scan state that the pools scanned so far determine, whatever their order, apart from the claimants. */
  ghost predicate ScanIs(m: Machine, cfg: NodeConfig, names: set<string>, s: Scan) {
    && s.isolated == Leftover(m, cfg, names, true)
    && s.available == Leftover(m, cfg, names, false)
    && s.offlined == ToOffline(m, cfg, names)
  }

  /** Some CPUs of a class are still unclaimed exactly if no fitting pool names them or puts them offline. */
  lemma UnclaimedMeans(m: Machine, cfg: NodeConfig, names: set<string>, isolated: bool, cpus: CPUSet)
    requires names <= cfg.Keys && Fits(m, cfg, names)
    requires cpus <= Class(m, isolated)
    ensures cpus <= Leftover(m, cfg, names, isolated) <==>
            forall q :: q in names ==> cpus !! CpusOf(cfg, q) && (!isolated ==> cpus !! SibsOf(m, cfg, q))
  {
    if cpus <= Leftover(m, cfg, names, isolated) {
      forall q | q in names ensures cpus !! CpusOf(cfg, q) && (!isolated ==> cpus !! SibsOf(m, cfg, q)) {
        forall c | c in cpus ensures c !in CpusOf(cfg, q) && (!isolated ==> c !in SibsOf(m, cfg, q)) {
        }
      }
    }
  }

  /** A pool that names its CPUs passes the scan exactly if it fits with the ones before it. */
  lemma StepMeans(m: Machine, cfg: NodeConfig, names: set<string>, s: Scan, x: string)
    requires ValidMachine(m) && names <= cfg.Keys && x in cfg && x !in names && !Claims(cfg[x])
    requires Fits(m, cfg, names) && ScanIs(m, cfg, names, s)
    ensures ScanStep(m, cfg, s, x).Some? <==> FitsWith(m, cfg, names, x)
    ensures ScanStep(m, cfg, s, x).Some? ==>
              ScanIs(m, cfg, names + {x}, ScanStep(m, cfg, s, x).value) &&
                  ScanStep(m, cfg, s, x).value.leftover == s.leftover
  {
    var cpus, sibs, isolated := CpusOf(cfg, x), SibsOf(m, cfg, x), cfg[x].isolated;
    TakenSplit(m, cfg, names, x, true);
    TakenSplit(m, cfg, names, x, false);
    if cpus <= Class(m, isolated) {
      UnclaimedMeans(m, cfg, names, isolated, cpus);
    }
  }

  /** The pool that claims what is left of an isolation class after the given pools were scanned; "" if none. */
  ghost function LastClaimant(cfg: NodeConfig, order: seq<string>, isolated: bool): string
    requires forall p :: p in order ==> p in cfg
  {
    if order == [] then "" else
    var last := order[|order| - 1];
    if Claims(cfg[last]) && cfg[last].isolated == isolated then last
    else LastClaimant(cfg, order[..|order| - 1], isolated)
  }

  /** No pool claims leftovers when another one, not named "", last claimed those of its class. */
  ghost predicate ClaimsFollow(cfg: NodeConfig, order: seq<string>)
    requires forall p :: p in order ==> p in cfg
  {
    order == [] ||
    var last, before := order[|order| - 1], order[..|order| - 1];
    ClaimsFollow(cfg, before) && (Claims(cfg[last]) ==> LastClaimant(cfg, before, cfg[last].isolated) == "")
  }

  lemma MembersSnoc(order: seq<string>)
    requires order != [] && Distinct(order)
    ensures
      var last, before := order[|order| - 1], order[..|order| - 1];
      Distinct(before) && last !in Members(before) && Members(order) == Members(before) + {last}
  {
    var last, before := order[|order| - 1], order[..|order| - 1];
    assert order == before + [last];
    forall i, j | 0 <= i < j < |before| ensures before[i] != before[j] {
      assert before[i] == order[i] && before[j] == order[j];
    }
  }

  /** The scan in any order accepts exactly the configurations that fit and whose claims follow that order. */
  lemma {:induction false} ScanMeans(m: Machine, cfg: NodeConfig, order: seq<string>)
    requires ValidMachine(m) && Distinct(order) && Members(order) <= cfg.Keys
    ensures forall p :: p in order ==> p in cfg
    ensures ScanAll(m, cfg, order).Some? <==> Fits(m, cfg, Members(order)) && ClaimsFollow(cfg, order)
    ensures ScanAll(m, cfg, order).Some? ==>
              && ScanIs(m, cfg, Members(order), ScanAll(m, cfg, order).value)
              && forall k :: Claimant(ScanAll(m, cfg, order).value, k) == LastClaimant(cfg, order, k)
  {
    forall p | p in order ensures p in cfg { assert p in Members(order); }
    if order == [] {
      assert Taken(cfg, {}, true) == {} && Taken(cfg, {}, false) == {} && ToOffline(m, cfg, {}) == {};
      assert m.isolated - {} == m.isolated && m.topo.Keys - m.isolated - {} - {} == m.topo.Keys - m.isolated;
    } else {
      var last, before := order[|order| - 1], order[..|order| - 1];
      MembersSnoc(order);
      ScanMeans(m, cfg, before);
      ScanMeansStep(m, cfg, before, last);
    }
  }

  lemma ScanMeansStep(m: Machine, cfg: NodeConfig, before: seq<string>, last: string)
    requires ValidMachine(m) && Members(before) <= cfg.Keys && last in cfg && last !in Members(before)
    requires forall p :: p in before ==> p in cfg
    requires ScanAll(m, cfg, before).Some? <==> Fits(m, cfg, Members(before)) && ClaimsFollow(cfg, before)
    requires ScanAll(m, cfg, before).Some? ==>
               && ScanIs(m, cfg, Members(before), ScanAll(m, cfg, before).value)
               && forall k :: Claimant(ScanAll(m, cfg, before).value, k) == LastClaimant(cfg, before, k)
    ensures
      var names := Members(before) + {last};
      var r := match ScanAll(m, cfg, before) case None => None case Some(s) => ScanStep(m, cfg, s, last);
      && (r.Some? <==> Fits(m, cfg, names) && ClaimsFollow(cfg, before) &&
                       (Claims(cfg[last]) ==> LastClaimant(cfg, before, cfg[last].isolated) == ""))
      && (r.Some? ==> ScanIs(m, cfg, names, r.value) &&
                      forall k :: Claimant(r.value, k) ==
                                  if Claims(cfg[last]) &&
                                      cfg[last].isolated == k then last else LastClaimant(cfg, before, k))
  {
    FitsSplit(m, cfg, Members(before), last);
    if ScanAll(m, cfg, before).Some? {
      var s := ScanAll(m, cfg, before).value;
      if Claims(cfg[last]) {
        ClaimantFits(m, cfg, Members(before), last);
      } else {
        StepMeans(m, cfg, Members(before), s, last);
      }
    }
  }

  lemma ClaimantFits(m: Machine, cfg: NodeConfig, names: set<string>, x: string)
    requires names <= cfg.Keys && x in cfg && Claims(cfg[x])
    ensures FitsWith(m, cfg, names, x)
    ensures forall s :: ScanIs(m, cfg, names, s) ==> ScanIs(m, cfg, names + {x}, s)
  {
    assert CpusOf(cfg, x) == {} && SibsOf(m, cfg, x) == {};
    TakenSplit(m, cfg, names, x, true);
    TakenSplit(m, cfg, names, x, false);
    assert Taken(cfg, names + {x}, true) == Taken(cfg, names, true);
    assert Taken(cfg, names + {x}, false) == Taken(cfg, names, false);
    assert ToOffline(m, cfg, names + {x}) == ToOffline(m, cfg, names);
  }

  /** At most one pool claims the leftovers of each isolation class. */
  ghost predicate UniqueClaims(cfg: NodeConfig, names: set<string>)
    requires names <= cfg.Keys
  {
    forall p, q ::
      p in names && q in names && Claims(cfg[p]) && Claims(cfg[q]) && cfg[p].isolated == cfg[q].isolated ==> p == q
  }

  lemma LastClaimantIs(cfg: NodeConfig, order: seq<string>, isolated: bool)
    requires forall p :: p in order ==> p in cfg
    ensures
      var p := LastClaimant(cfg, order, isolated);
      p != "" ==> p in order && Claims(cfg[p]) && cfg[p].isolated == isolated
  {
  }

  /** In an order that the scan follows, a claimant not named "" is the last of its class. */
  lemma {:induction false} FollowedClaimsLast(cfg: NodeConfig, order: seq<string>, p: string)
    requires forall p :: p in order ==> p in cfg
    requires ClaimsFollow(cfg, order) && p in order && p != "" && Claims(cfg[p])
    ensures LastClaimant(cfg, order, cfg[p].isolated) == p
  {
    var last, before := order[|order| - 1], order[..|order| - 1];
    if p != last {
      assert order == before + [last];
      FollowedClaimsLast(cfg, before, p);
    }
  }

  /** Claims that are unique are followed in every order. */
  lemma {:induction false} UniqueClaimsFollow(cfg: NodeConfig, order: seq<string>)
    requires Distinct(order) && Members(order) <= cfg.Keys && UniqueClaims(cfg, Members(order))
    ensures forall p :: p in order ==> p in cfg
    ensures ClaimsFollow(cfg, order)
  {
    forall p | p in order ensures p in cfg { assert p in Members(order); }
    if order != [] {
      var last, before := order[|order| - 1], order[..|order| - 1];
      MembersSnoc(order);
      forall p | p in Members(before) ensures p in Members(order) { }
      UniqueClaimsFollow(cfg, before);
      if Claims(cfg[last]) {
        var p := LastClaimant(cfg, before, cfg[last].isolated);
        LastClaimantIs(cfg, before, cfg[last].isolated);
        assert p != "" ==> p in Members(order) && last in Members(order);
      }
    }
  }

  /** No two pools other than the one named "" claim the same class. */
  ghost predicate UniqueNamedClaims(cfg: NodeConfig, names: set<string>)
    requires names <= cfg.Keys
  {
    UniqueClaims(cfg, names - {""})
  }

  lemma FollowedClaimsUnique(cfg: NodeConfig, order: seq<string>)
    requires Members(order) <= cfg.Keys && forall p :: p in order ==> p in cfg
    requires ClaimsFollow(cfg, order)
    ensures UniqueNamedClaims(cfg, Members(order))
  {
    forall p, q | p in Members(order) - {""} && q in Members(order) - {""}
                  && Claims(cfg[p]) && Claims(cfg[q]) && cfg[p].isolated == cfg[q].isolated
      ensures p == q
    {
      FollowedClaimsLast(cfg, order, p);
      FollowedClaimsLast(cfg, order, q);
    }
  }

  ghost predicate Passes(m: Machine, cfg: NodeConfig, order: seq<string>)
    requires IsOrder(order, cfg.Keys)
  {
    assert forall p :: p in order ==> p in Members(order);
    ScanAll(m, cfg, order).Some?
  }

  lemma {:induction false} FollowAfterEmpty(cfg: NodeConfig, order: seq<string>)
    requires Distinct([""] + order) && "" in cfg && Members(order) <= cfg.Keys
    requires UniqueClaims(cfg, Members(order))
    ensures forall p :: p in [""] + order ==> p in cfg
    ensures ClaimsFollow(cfg, [""] + order)
    ensures forall k :: LastClaimant(cfg, [""] + order, k) != "" ==> LastClaimant(cfg, [""] + order, k) in order
  {
    var all := [""] + order;
    forall p | p in all ensures p in cfg { assert p in order ==> p in Members(order); }
    if order != [] {
      var last, before := order[|order| - 1], order[..|order| - 1];
      assert all[..|all| - 1] == [""] + before;
      assert order == before + [last];
      MembersSnoc(all);
      forall p | p in Members(before) ensures p in Members(order) { }
      assert last in Members(order);
      FollowAfterEmpty(cfg, before);
      if Claims(cfg[last]) {
        var p := LastClaimant(cfg, [""] + before, cfg[last].isolated);
        LastClaimantIs(cfg, [""] + before, cfg[last].isolated);
        assert p != "" ==> p in Members(order);
      }
    }
  }

  lemma EmptyFirst(cfg: NodeConfig) returns (order: seq<string>)
    requires "" in cfg && UniqueNamedClaims(cfg, cfg.Keys)
    ensures IsOrder(order, cfg.Keys)
    ensures forall p :: p in order ==> p in cfg
    ensures ClaimsFollow(cfg, order)
  {
    var rest := AnyOrder(cfg.Keys - {""});
    order := [""] + rest;
    assert forall p :: p in rest <==> p in Members(rest);
    FollowAfterEmpty(cfg, rest);
    assert Members(order) == cfg.Keys by {
      forall p ensures p in Members(order) <==> p in cfg { }
    }
  }

  lemma EmptyLast(cfg: NodeConfig, x: string) returns (order: seq<string>)
    requires "" in cfg && x in cfg && x != ""
    requires Claims(cfg[""]) && Claims(cfg[x]) && cfg[x].isolated == cfg[""].isolated
    ensures IsOrder(order, cfg.Keys)
    ensures forall p :: p in order ==> p in cfg
    ensures !ClaimsFollow(cfg, order)
  {
    var others := cfg.Keys - {"", x};
    var rest := AnyOrder(others);
    order := rest + [x] + [""];
    OrderSnoc(rest, others, x);
    OrderSnoc(rest + [x], others + {x}, "");
    assert others + {x} + {""} == cfg.Keys;
    OrderMembers(order, cfg.Keys);
    hide IsOrder;
    assert order[..|order| - 1] == rest + [x];
    assert forall p :: p in rest + [x] ==> p in order;
    assert LastClaimant(cfg, rest + [x], cfg[x].isolated) == x;
  }

  lemma OrderMembers(order: seq<string>, keys: set<string>)
    requires IsOrder(order, keys)
    ensures forall p :: p in order ==> p in keys
  {
    assert forall p :: p in order ==> p in Members(order);
  }

  // Acceptance

  ghost function Claimed(s: Scan, isolated: bool): CPUSet {
    if isolated then s.isolated else s.available
  }

  /** What prepareConfig decides when it visits the pools in the given order; busy are the pools in use. */
  ghost predicate Accepts(m: Machine, busy: set<string>, cfg: NodeConfig, order: seq<string>)
    requires ValidMachine(m) && IsOrder(order, cfg.Keys)
  {
    && WithReserved(m, cfg).Some?
    && var cfg1 := WithReserved(m, cfg).value;
       && Passes(m, cfg1, order)
       && var s := ScanAll(m, cfg1, order).value;
          && (forall k :: Claimant(s, k) != "" ==> Claimed(s, k) != {})
          && busy <= cfg.Keys
  }

  /** The configuration after the claimants of a scan got their CPUs. */
  ghost function WithLeftovers(cfg: NodeConfig, s: Scan): NodeConfig {
    map p | p in cfg ::
      if p != "" && Claims(cfg[p]) && Claimant(s, cfg[p].isolated) == p
      then cfg[p].(cpus := Some(Claimed(s, cfg[p].isolated))) else cfg[p]
  }

  /** The same decision without any order: the reserved pool can be set up, the pools fit, claims are unique
      and have something left to claim, and no pool in use is dropped. */
  ghost predicate Acceptable(m: Machine, busy: set<string>, cfg: NodeConfig)
    requires ValidMachine(m)
  {
    && WithReserved(m, cfg).Some?
    && AcceptableSetUp(m, busy, WithReserved(m, cfg).value)
  }

  ghost predicate AcceptableSetUp(m: Machine, busy: set<string>, cfg: NodeConfig) {
    && Fits(m, cfg, cfg.Keys)
    && UniqueClaims(cfg, cfg.Keys)
    && ClaimsCanBeMet(m, cfg)
    && busy <= cfg.Keys
  }

  /** Something is left for every claimant that is not overlooked. */
  ghost predicate ClaimsCanBeMet(m: Machine, cfg: NodeConfig) {
    forall p :: p in cfg && p != "" && Claims(cfg[p]) ==> Leftover(m, cfg, cfg.Keys, cfg[p].isolated) != {}
  }

  /** A pool named "" is overlooked when it claims leftovers: to the claims, "" means that there is no claimant. */
  predicate Overlooked(cfg: NodeConfig, p: string)
    requires p in cfg
  {
    p == "" && Claims(cfg[p])
  }

  predicate NoneOverlooked(cfg: NodeConfig) {
    "" in cfg ==> !Overlooked(cfg, "")
  }

  /** The configuration that gets activated, without any order. */
  ghost function Resolved(m: Machine, cfg: NodeConfig): NodeConfig
    requires ValidMachine(m) && WithReserved(m, cfg).Some?
  {
    ResolvedSetUp(m, WithReserved(m, cfg).value)
  }

  ghost function ResolvedSetUp(m: Machine, cfg: NodeConfig): NodeConfig {
    map p | p in cfg ::
      if p != "" && Claims(cfg[p]) then cfg[p].(cpus := Some(Leftover(m, cfg, cfg.Keys, cfg[p].isolated))) else cfg[p]
  }

  /** The CPUs taken offline for HT-free pools. */
  ghost function Offlined(m: Machine, cfg: NodeConfig): CPUSet
    requires ValidMachine(m) && WithReserved(m, cfg).Some?
  {
    var cfg1 := WithReserved(m, cfg).value;
    ToOffline(m, cfg1, cfg1.Keys)
  }

  /** What prepareConfig decides in one iteration order, for every configuration. */
  lemma AcceptsMeans(m: Machine, busy: set<string>, cfg: NodeConfig, order: seq<string>)
    requires ValidMachine(m) && IsOrder(order, cfg.Keys)
    ensures
      Accepts(m, busy, cfg, order) <==>
      && WithReserved(m, cfg).Some?
      && var cfg1 := WithReserved(m, cfg).value;
         && cfg1.Keys == cfg.Keys && Fits(m, cfg1, cfg1.Keys) && FollowsIn(cfg1, order)
         && ClaimsCanBeMet(m, cfg1) && busy <= cfg.Keys
  {
    if WithReserved(m, cfg).Some? {
      var cfg1 := WithReserved(m, cfg).value;
      assert cfg1.Keys == cfg.Keys;
      PassMeans(m, cfg1, order);
      if Passes(m, cfg1, order) {
        ClaimantsMean(m, cfg1, order);
        LeftoversMean(m, cfg1, ScanAll(m, cfg1, order).value);
      }
    }
  }

  /** The claims follow the given iteration order. */
  ghost predicate FollowsIn(cfg: NodeConfig, order: seq<string>)
    requires IsOrder(order, cfg.Keys)
  {
    assert forall p :: p in order ==> p in Members(order);
    ClaimsFollow(cfg, order)
  }

  lemma PassMeans(m: Machine, cfg: NodeConfig, order: seq<string>)
    requires ValidMachine(m) && IsOrder(order, cfg.Keys)
    ensures Passes(m, cfg, order) <==> Fits(m, cfg, cfg.Keys) && FollowsIn(cfg, order)
    ensures FollowsIn(cfg, order) ==> UniqueNamedClaims(cfg, cfg.Keys)
    ensures UniqueClaims(cfg, cfg.Keys) ==> FollowsIn(cfg, order)
  {
    ScanMeans(m, cfg, order);
    if FollowsIn(cfg, order) {
      FollowedClaimsUnique(cfg, order);
    }
    if UniqueClaims(cfg, cfg.Keys) {
      UniqueClaimsFollow(cfg, order);
    }
  }

  /** The verdict hangs on the iteration order: everything is acceptable, except that the pool named "" claims what
      a single other pool claims too. */
  ghost predicate OrderMatters(m: Machine, busy: set<string>, cfg: NodeConfig)
    requires ValidMachine(m)
  {
    && WithReserved(m, cfg).Some?
    && var cfg1 := WithReserved(m, cfg).value;
       && Fits(m, cfg1, cfg1.Keys) && ClaimsCanBeMet(m, cfg1) && busy <= cfg.Keys
       && UniqueNamedClaims(cfg1, cfg1.Keys) && !UniqueClaims(cfg1, cfg1.Keys)
  }

  /** Some orders accept a configuration and others reject it exactly if the pool named "" competes with a single other
      claimant of its class and nothing else speaks against the configuration. */
  lemma VerdictDependsOnOrder(m: Machine, busy: set<string>, cfg: NodeConfig)
    requires ValidMachine(m)
    ensures
      (exists a, b ::
         IsOrder(a, cfg.Keys) && IsOrder(b, cfg.Keys) && Accepts(m, busy, cfg, a) && !Accepts(m, busy, cfg, b))
      <==> OrderMatters(m, busy, cfg)
  {
    forall order | IsOrder(order, cfg.Keys) && WithReserved(m, cfg).Some?
      ensures
        var cfg1 := WithReserved(m, cfg).value;
        && cfg1.Keys == cfg.Keys
        && (FollowsIn(cfg1, order) ==> UniqueNamedClaims(cfg1, cfg1.Keys))
        && (UniqueClaims(cfg1, cfg1.Keys) ==> FollowsIn(cfg1, order))
    {
      assert WithReserved(m, cfg).value.Keys == cfg.Keys;
      PassMeans(m, WithReserved(m, cfg).value, order);
    }
    forall order | IsOrder(order, cfg.Keys)
      ensures
        Accepts(m, busy, cfg, order) <==>
        && WithReserved(m, cfg).Some?
        && var cfg1 := WithReserved(m, cfg).value;
           && cfg1.Keys == cfg.Keys && Fits(m, cfg1, cfg1.Keys) && FollowsIn(cfg1, order)
           && ClaimsCanBeMet(m, cfg1) && busy <= cfg.Keys
    {
      AcceptsMeans(m, busy, cfg, order);
    }
    hide Accepts, Fits, ClaimsCanBeMet, FollowsIn, IsOrder;
    if OrderMatters(m, busy, cfg) {
      var a, b := OrdersDiffer(WithReserved(m, cfg).value);
      assert Accepts(m, busy, cfg, a) && !Accepts(m, busy, cfg, b);
    }
  }

  /** Two orders of which the claims follow one only. */
  lemma OrdersDiffer(cfg: NodeConfig) returns (a: seq<string>, b: seq<string>)
    requires UniqueNamedClaims(cfg, cfg.Keys) && !UniqueClaims(cfg, cfg.Keys)
    ensures IsOrder(a, cfg.Keys) && IsOrder(b, cfg.Keys) && FollowsIn(cfg, a) && !FollowsIn(cfg, b)
  {
    var names := cfg.Keys;
    var p, q :|
      p in names && q in names && Claims(cfg[p]) && Claims(cfg[q]) && cfg[p].isolated == cfg[q].isolated && p != q;
    var x := if p == "" then q else p;
    assert p in names - {""} ==> q !in names - {""};
    assert x != "" && "" in names && Claims(cfg[""]) && cfg[""].isolated == cfg[x].isolated;
    a := EmptyFirst(cfg);
    b := EmptyLast(cfg, x);
  }

  /** When the order does not matter, the verdict in every iteration order is that of the declarative predicate, and on
      acceptance the CPU sets of all pools and the offlined CPUs are the same. */
  lemma PreparationMeans(m: Machine, busy: set<string>, cfg: NodeConfig, order: seq<string>)
    requires ValidMachine(m) && IsOrder(order, cfg.Keys) && !OrderMatters(m, busy, cfg)
    ensures Accepts(m, busy, cfg, order) <==> Acceptable(m, busy, cfg)
    ensures Accepts(m, busy, cfg, order) ==>
              var cfg1 := WithReserved(m, cfg).value;
              && Passes(m, cfg1, order)
              && WithLeftovers(cfg1, ScanAll(m, cfg1, order).value) == Resolved(m, cfg)
              && ScanAll(m, cfg1, order).value.offlined == Offlined(m, cfg)
  {
    AcceptsMeans(m, busy, cfg, order);
    if WithReserved(m, cfg).Some? {
      var cfg1 := WithReserved(m, cfg).value;
      assert cfg1.Keys == cfg.Keys;
      PassMeans(m, cfg1, order);
      if Passes(m, cfg1, order) {
        ClaimantsMean(m, cfg1, order);
        LeftoversMean(m, cfg1, ScanAll(m, cfg1, order).value);
      }
    }
  }

  /** The order never matters when no pool is overlooked. */
  lemma NoneOverlookedAgrees(m: Machine, busy: set<string>, cfg: NodeConfig)
    requires ValidMachine(m) && NoneOverlooked(cfg)
    ensures !OrderMatters(m, busy, cfg)
  {
    if WithReserved(m, cfg).Some? {
      var cfg1 := WithReserved(m, cfg).value;
      if UniqueNamedClaims(cfg1, cfg1.Keys) {
        UniqueWithoutEmpty(cfg1);
      }
    }
  }

  lemma LeftoversMean(m: Machine, cfg: NodeConfig, s: Scan)
    requires forall p :: p in cfg && p != "" && Claims(cfg[p]) ==> Claimant(s, cfg[p].isolated) == p
    requires forall k :: Claimant(s, k) != "" ==>
               Claimant(s, k) in cfg && Claims(cfg[Claimant(s, k)]) && cfg[Claimant(s, k)].isolated == k
    requires forall k :: Claimed(s, k) == Leftover(m, cfg, cfg.Keys, k)
    ensures WithLeftovers(cfg, s) == ResolvedSetUp(m, cfg)
    ensures (forall k :: Claimant(s, k) != "" ==> Claimed(s, k) != {}) <==> ClaimsCanBeMet(m, cfg)
  {
  }

  lemma UniqueWithoutEmpty(cfg: NodeConfig)
    requires NoneOverlooked(cfg) && UniqueNamedClaims(cfg, cfg.Keys)
    ensures UniqueClaims(cfg, cfg.Keys)
  {
    forall p | p in cfg && Claims(cfg[p]) ensures p in cfg.Keys - {""} { }
  }

  /** After an accepted scan the claimants are exactly the pools that claim leftovers and are not overlooked. */
  lemma ClaimantsMean(m: Machine, cfg: NodeConfig, order: seq<string>)
    requires ValidMachine(m) && IsOrder(order, cfg.Keys) && Passes(m, cfg, order)
    ensures forall p :: p in order <==> p in cfg
    ensures
      var s := ScanAll(m, cfg, order).value;
      && (forall p :: p in cfg && p != "" && Claims(cfg[p]) ==> Claimant(s, cfg[p].isolated) == p)
      && (forall k :: Claimant(s, k) != "" ==>
            Claimant(s, k) in cfg && Claims(cfg[Claimant(s, k)]) && cfg[Claimant(s, k)].isolated == k)
      && (forall k :: Claimed(s, k) == Leftover(m, cfg, cfg.Keys, k))
      && s.offlined == ToOffline(m, cfg, cfg.Keys)
  {
    forall p ensures p in order <==> p in cfg { assert p in Members(order) <==> p in cfg; }
    ScanMeans(m, cfg, order);
    forall p | p in cfg && p != "" && Claims(cfg[p]) ensures LastClaimant(cfg, order, cfg[p].isolated) == p {
      FollowedClaimsLast(cfg, order, p);
    }
    LastClaimantIs(cfg, order, true);
    LastClaimantIs(cfg, order, false);
  }

  // The partition of the CPUs

  /** Every pool of an activated configuration that is not overlooked has its CPU set. */
  lemma ResolvedHasCpus(m: Machine, cfg: NodeConfig)
    requires ValidMachine(m) && WithReserved(m, cfg).Some? && Ready(cfg)
    ensures Resolved(m, cfg).Keys == cfg.Keys
    ensures forall p :: p in Resolved(m, cfg) && !Overlooked(cfg, p) ==> Resolved(m, cfg)[p].cpus.Some?
    ensures Scannable(WithReserved(m, cfg).value)
  {
  }

  /** The CPUs of an activated pool and what it had before its claims were met. */
  lemma ResolvedCpus(m: Machine, cfg: NodeConfig, p: string)
    requires ValidMachine(m) && WithReserved(m, cfg).Some? && Ready(cfg) && p in cfg && !Overlooked(cfg, p)
    ensures
      var cfg1 := WithReserved(m, cfg).value;
      && p in cfg1 && cfg1.Keys == cfg.Keys && p in Resolved(m, cfg) && Resolved(m, cfg)[p].cpus.Some?
      && Resolved(m, cfg)[p].isolated == cfg[p].isolated == cfg1[p].isolated
      && Resolved(m, cfg)[p].disableHT == cfg[p].disableHT == cfg1[p].disableHT
      && Resolved(m, cfg)[p].cpus.value ==
         if Claims(cfg1[p]) then Leftover(m, cfg1, cfg1.Keys, cfg[p].isolated) else CpusOf(cfg1, p)
  {
  }

  lemma TakenBy(m: Machine, cfg: NodeConfig, p: string)
    requires p in cfg
    ensures CpusOf(cfg, p) <= Taken(cfg, cfg.Keys, cfg[p].isolated)
    ensures SibsOf(m, cfg, p) <= ToOffline(m, cfg, cfg.Keys)
  {
    forall c | c in CpusOf(cfg, p) ensures c in Taken(cfg, cfg.Keys, cfg[p].isolated) { }
    forall c | c in SibsOf(m, cfg, p) ensures c in ToOffline(m, cfg, cfg.Keys) { }
  }

  /** The CPU sets of an accepted configuration and its offlined CPUs are pairwise disjoint,
      each pool's CPUs in its isolation class. */
  lemma ResolvedDisjoint(m: Machine, busy: set<string>, cfg: NodeConfig, p: string, q: string)
    requires ValidMachine(m) && Ready(cfg) && Acceptable(m, busy, cfg)
    requires p in cfg && q in cfg && !Overlooked(cfg, p) && !Overlooked(cfg, q)
    ensures p in Resolved(m, cfg) && Resolved(m, cfg)[p].cpus.Some? && q in Resolved(m, cfg) &&
        Resolved(m, cfg)[q].cpus.Some?
    ensures Resolved(m, cfg)[p].cpus.value <= Class(m, cfg[p].isolated)
    ensures p != q ==> Resolved(m, cfg)[p].cpus.value !! Resolved(m, cfg)[q].cpus.value
    ensures Resolved(m, cfg)[p].cpus.value !! Offlined(m, cfg)
    ensures Offlined(m, cfg) <= Class(m, false)
  {
    var cfg1 := WithReserved(m, cfg).value;
    ResolvedCpus(m, cfg, p);
    ResolvedCpus(m, cfg, q);
    TakenBy(m, cfg1, p);
    TakenBy(m, cfg1, q);
    assert Claims(cfg1[p]) && Claims(cfg1[q]) && p != q ==> cfg[p].isolated != cfg[q].isolated;
    assert forall x :: x in Offlined(m, cfg) ==> x in Class(m, false) && x !in CpusOf(cfg1, p);
  }

  /** All CPUs of the activated pools that are neither isolated nor overlooked. */
  ghost function SharedClassCpus(cfg: NodeConfig): CPUSet {
    set p, c | p in cfg && !Overlooked(cfg, p) && !cfg[p].isolated && cfg[p].cpus.Some? && c in cfg[p].cpus.value :: c
  }

  lemma ClassMember(m: Machine, busy: set<string>, cfg: NodeConfig, claimant: string, c: int)
    requires ValidMachine(m) && Ready(cfg) && Acceptable(m, busy, cfg)
    requires claimant in cfg && claimant != "" && Claims(cfg[claimant]) && !cfg[claimant].isolated
    requires c in Class(m, false)
    ensures c in Offlined(m, cfg) || c in SharedClassCpus(Resolved(m, cfg))
  {
    hide *;
    AcceptableIsSetUp(m, busy, cfg);
    var cfg1, r := WithReserved(m, cfg).value, Resolved(m, cfg);
    if c in Taken(cfg1, cfg1.Keys, false) {
      var p := Taker(m, cfg, c);
      SharedHas(r, p, c);
    } else if c !in Offlined(m, cfg) {
      LeftoverHas(m, cfg, claimant, c);
      SharedHas(r, claimant, c);
    }
  }

  lemma AcceptableIsSetUp(m: Machine, busy: set<string>, cfg: NodeConfig)
    requires ValidMachine(m) && Acceptable(m, busy, cfg)
    ensures WithReserved(m, cfg).Some?
  {
  }

  lemma SharedHas(cfg: NodeConfig, p: string, c: int)
    requires p in cfg && !Overlooked(cfg, p) && !cfg[p].isolated && cfg[p].cpus.Some? && c in cfg[p].cpus.value
    ensures c in SharedClassCpus(cfg)
  {
  }

  /** The pool that names a CPU that is not isolated. */
  lemma Taker(m: Machine, cfg: NodeConfig, c: int) returns (p: string)
    requires ValidMachine(m) && Ready(cfg) && WithReserved(m, cfg).Some?
    requires c in Taken(WithReserved(m, cfg).value, WithReserved(m, cfg).value.Keys, false)
    ensures
      var r := Resolved(m, cfg);
      p in r && !Overlooked(r, p) && !r[p].isolated && r[p].cpus.Some? && c in r[p].cpus.value
  {
    var cfg1 := WithReserved(m, cfg).value;
    p :| p in cfg1.Keys && p in cfg1 && cfg1[p].isolated == false && c in CpusOf(cfg1, p);
    assert !Claims(cfg1[p]);
    hide ValidMachine, Leftover;
  }

  lemma LeftoverHas(m: Machine, cfg: NodeConfig, claimant: string, c: int)
    requires ValidMachine(m) && Ready(cfg) && WithReserved(m, cfg).Some?
    requires claimant in cfg && claimant != "" && Claims(cfg[claimant]) && !cfg[claimant].isolated
    requires c in Class(m, false) && c !in Offlined(m, cfg)
    requires c !in Taken(WithReserved(m, cfg).value, WithReserved(m, cfg).value.Keys, false)
    ensures
      var r := Resolved(m, cfg);
      && claimant in r && !Overlooked(r, claimant) && !r[claimant].isolated && r[claimant].cpus.Some?
      && c in r[claimant].cpus.value
  {
    hide ValidMachine, Taken, ToOffline;
  }

  /** With a claimant of the leftovers that are not isolated, the pools that are not isolated and the
      offlined CPUs make up exactly the CPUs that are not isolated. */
  lemma ResolvedCovers(m: Machine, busy: set<string>, cfg: NodeConfig, claimant: string)
    requires ValidMachine(m) && Ready(cfg) && Acceptable(m, busy, cfg)
    requires claimant in cfg && claimant != "" && Claims(cfg[claimant]) && !cfg[claimant].isolated
    ensures SharedClassCpus(Resolved(m, cfg)) + Offlined(m, cfg) == Class(m, false)
  {
    ResolvedHasCpus(m, cfg);
    ResolvedDisjoint(m, busy, cfg, claimant, claimant);
    var pools, off, all := SharedClassCpus(Resolved(m, cfg)), Offlined(m, cfg), Class(m, false);
    hide *;
    forall c | c in all ensures c in pools + off {
      ClassMember(m, busy, cfg, claimant, c);
    }
    PoolsInClass(m, busy, cfg);
    assert pools + off == all;
  }

  lemma PoolsInClass(m: Machine, busy: set<string>, cfg: NodeConfig)
    requires ValidMachine(m) && Ready(cfg) && Acceptable(m, busy, cfg)
    ensures SharedClassCpus(Resolved(m, cfg)) <= Class(m, false)
  {
    ResolvedHasCpus(m, cfg);
    var r := Resolved(m, cfg);
    forall c | c in SharedClassCpus(r) ensures c in Class(m, false) {
      var p :| p in r && !Overlooked(r, p) && !r[p].isolated && r[p].cpus.Some? && c in r[p].cpus.value;
      ResolvedCpus(m, cfg, p);
      ResolvedDisjoint(m, busy, cfg, p, p);
    }
  }

  // Hyperthreads

  /** With exactly these CPUs offline, no CPU of an HT-free pool has an online sibling. */
  ghost predicate HtFree(m: Machine, cfg: NodeConfig, offline: CPUSet) {
    forall p :: p in cfg && cfg[p].disableHT && cfg[p].cpus.Some? ==> Siblings(m.topo, cfg[p].cpus.value) <= offline
  }

  /** Where an offlined CPU comes from. */
  lemma OfflinedFor(m: Machine, cfg: NodeConfig, c: int) returns (p: string, z: int)
    requires ValidMachine(m) && Ready(cfg) && WithReserved(m, cfg).Some? && c in Offlined(m, cfg)
    ensures p in cfg && p in Resolved(m, cfg) && Resolved(m, cfg)[p].disableHT && Resolved(m, cfg)[p].cpus.Some?
    ensures !Claims(cfg[p])
    ensures z in Resolved(m, cfg)[p].cpus.value && z in m.topo && c in m.topo[z].threads && c != z
  {
    var cfg1 := WithReserved(m, cfg).value;
    p :| p in cfg1.Keys && p in cfg1 && c in SibsOf(m, cfg1, p);
    z :| z in CpusOf(cfg1, p) && z in m.topo && c in m.topo[z].threads && c != z;
    ResolvedCpus(m, cfg, p);
  }

  /** Every core keeps an online thread. */
  lemma OffliningKeepsCores(m: Machine, busy: set<string>, cfg: NodeConfig)
    requires ValidMachine(m) && Ready(cfg) && Acceptable(m, busy, cfg)
    ensures NoDeadCore(m.topo, Offlined(m, cfg))
    ensures NoDeadCore(m.topo, Offlined(m, cfg) - {0})
  {
    var off := Offlined(m, cfg);
    forall c | c in m.topo ensures m.topo[c].threads - off != {} && m.topo[c].threads - (off - {0}) != {} {
      var z := c;
      if c in off {
        var p;
        p, z := OfflinedFor(m, cfg, c);
        ResolvedDisjoint(m, busy, cfg, p, p);
      }
      assert z in m.topo[c].threads - off && z in m.topo[c].threads - (off - {0});
    }
  }

  /** CPU 0 is not offlined if the reserved pool, given by CPUs or a count, is not empty. */
  lemma ReservedKeepsCpu0(m: Machine, busy: set<string>, cfg: NodeConfig)
    requires ValidMachine(m) && Ready(cfg) && Acceptable(m, busy, cfg)
    requires !Claims(cfg[RESERVED]) && Resolved(m, cfg)[RESERVED].cpus != Some({})
    ensures 0 !in Offlined(m, cfg)
  {
    ResolvedCpus(m, cfg, RESERVED);
    FirstCpusShape(m.topo, cfg[RESERVED].cpuCount, 0, 0);
    ResolvedDisjoint(m, busy, cfg, RESERVED, RESERVED);
  }

  /** CPU 0 cannot be taken offline. So the HT-free pools of an accepted configuration without HT-free claimants
      are HT-free afterwards exactly if CPU 0 is no sibling of theirs. */
  lemma OffliningMeans(m: Machine, busy: set<string>, cfg: NodeConfig)
    requires ValidMachine(m) && Ready(cfg) && Acceptable(m, busy, cfg)
    requires forall p :: p in cfg && Claims(cfg[p]) ==> !cfg[p].disableHT
    ensures HtFree(m, Resolved(m, cfg), Offlined(m, cfg) - {0}) <==> 0 !in Offlined(m, cfg)
  {
    var cfg1, r, off := WithReserved(m, cfg).value, Resolved(m, cfg), Offlined(m, cfg);
    if 0 in off {
      var p, z := OfflinedFor(m, cfg, 0);
      assert 0 in Siblings(m.topo, r[p].cpus.value);
    } else {
      forall p | p in r && r[p].disableHT && r[p].cpus.Some? ensures Siblings(m.topo, r[p].cpus.value) <= off - {0} {
        ResolvedCpus(m, cfg, p);
        TakenBy(m, cfg1, p);
        assert off - {0} == off;
      }
    }
  }

  /** Leftovers handed out so far, by isolation class. */
  ghost function WithSomeLeftovers(cfg: NodeConfig, s: Scan, done: set<bool>): NodeConfig {
    map p | p in cfg ::
      if p != "" && Claims(cfg[p]) && Claimant(s, cfg[p].isolated) == p && cfg[p].isolated in done
      then cfg[p].(cpus := Some(Claimed(s, cfg[p].isolated))) else cfg[p]
  }

  /** The pools that have their final configuration by then. */
  ghost function Settled(cfg: NodeConfig, s: Scan, done: set<bool>): set<string> {
    set p | p in cfg && (!Claims(cfg[p]) || (p != "" && Claimant(s, cfg[p].isolated) == p && cfg[p].isolated in done))
  }

  lemma LeftoversStart(cfg: NodeConfig, s: Scan)
    ensures WithSomeLeftovers(cfg, s, {}) == cfg
    ensures Settled(cfg, s, {}) == set p | p in cfg && !Claims(cfg[p])
  {
  }

  lemma LeftoversSkip(cfg: NodeConfig, s: Scan, done: set<bool>, k: bool)
    requires Claimant(s, k) == ""
    ensures WithSomeLeftovers(cfg, s, done + {k}) == WithSomeLeftovers(cfg, s, done)
    ensures Settled(cfg, s, done + {k}) == Settled(cfg, s, done)
  {
  }

  lemma LeftoversStep(cfg: NodeConfig, s: Scan, done: set<bool>, k: bool)
    requires k !in done && Claimant(s, k) != ""
    requires var p := Claimant(s, k); p in cfg && Claims(cfg[p]) && cfg[p].isolated == k
    ensures
      var p := Claimant(s, k);
      && WithSomeLeftovers(cfg, s, done)[p] == cfg[p]
      && p !in Settled(cfg, s, done)
      && WithSomeLeftovers(cfg, s, done + {k}) ==
         WithSomeLeftovers(cfg, s, done)[p := cfg[p].(cpus := Some(Claimed(s, k)))]
      && Settled(cfg, s, done + {k}) == Settled(cfg, s, done) + {p}
  {
    var p := Claimant(s, k);
    forall q | q in Settled(cfg, s, done + {k}) && q != p ensures q in Settled(cfg, s, done) {
    }
  }

  lemma LeftoversEnd(cfg: NodeConfig, s: Scan)
    ensures WithSomeLeftovers(cfg, s, s.leftover.Keys) == WithLeftovers(cfg, s)
  {
    forall p | p in cfg ensures WithSomeLeftovers(cfg, s, s.leftover.Keys)[p] == WithLeftovers(cfg, s)[p] {
    }
  }

  /** After an accepted scan every pool is settled in the end, except one named "" that claims leftovers. */
  lemma SettledInTheEnd(m: Machine, cfg: NodeConfig, order: seq<string>)
    requires ValidMachine(m) && IsOrder(order, cfg.Keys) && Passes(m, cfg, order)
    ensures
      var s := ScanAll(m, cfg, order).value;
      Settled(cfg, s, s.leftover.Keys) == set p | p in cfg && !(p == "" && Claims(cfg[p]))
  {
    var s := ScanAll(m, cfg, order).value;
    ScanMeans(m, cfg, order);
    forall p | p in cfg && p != "" && Claims(cfg[p])
      ensures Claimant(s, cfg[p].isolated) == p && cfg[p].isolated in s.leftover {
      assert p in Members(order);
      FollowedClaimsLast(cfg, order, p);
    }
  }

  /** The claimants a scan found are pools that claim leftovers of that class. */
  lemma ClaimantsClaim(m: Machine, cfg: NodeConfig, order: seq<string>, k: bool)
    requires ValidMachine(m) && IsOrder(order, cfg.Keys) && Passes(m, cfg, order)
    ensures
      var p := Claimant(ScanAll(m, cfg, order).value, k);
      p != "" ==> p in cfg && Claims(cfg[p]) && cfg[p].isolated == k
  {
    ScanMeans(m, cfg, order);
    assert forall p :: p in order ==> p in Members(order);
    LastClaimantIs(cfg, order, k);
  }

  /** A pool rejected on the way rejects the configuration, whatever order the rest would have had. */
  lemma RejectedOnTheWay(m: Machine, busy: set<string>, cfg: NodeConfig, order: seq<string>, x: string,
                         rest: seq<string>)
    requires ValidMachine(m) && WithReserved(m, cfg).Some?
    requires forall p :: p in order + [x] + rest ==> p in cfg
    requires ScanAll(m, WithReserved(m, cfg).value, order).Some?
    requires ScanStep(m, WithReserved(m, cfg).value, ScanAll(m, WithReserved(m, cfg).value, order).value, x).None?
    requires IsOrder(order + [x] + rest, cfg.Keys)
    ensures !Accepts(m, busy, cfg, order + [x] + rest)
  {
    var cfg1 := WithReserved(m, cfg).value;
    assert (order + [x])[..|order|] == order;
    RejectedForGood(m, cfg1, order + [x], rest);
  }

  lemma OrderSnoc(order: seq<string>, keys: set<string>, x: string)
    requires IsOrder(order, keys) && x !in keys
    ensures IsOrder(order + [x], keys + {x})
  {
    assert forall p :: p in order ==> p in Members(order);
    forall p ensures p in Members(order + [x]) <==> p in keys + {x} { }
  }

  lemma OrderAppend(a: seq<string>, aKeys: set<string>, b: seq<string>, bKeys: set<string>)
    requires IsOrder(a, aKeys) && IsOrder(b, bKeys) && aKeys !! bKeys
    ensures IsOrder(a + b, aKeys + bKeys)
  {
    forall i, j | 0 <= i < j < |a + b| ensures (a + b)[i] != (a + b)[j] {
      if i < |a| <= j {
        assert a[i] in Members(a) && b[j - |a|] in Members(b);
      }
    }
    assert forall p :: p in a ==> p in Members(a);
    assert forall p :: p in b ==> p in Members(b);
    forall p ensures p in Members(a + b) <==> p in aKeys + bKeys { }
  }

  lemma ScanSnoc(m: Machine, cfg: NodeConfig, order: seq<string>, x: string)
    requires forall p :: p in order + [x] ==> p in cfg
    ensures forall p :: p in order ==> p in cfg
    ensures ScanAll(m, cfg, order + [x]) ==
            match ScanAll(m, cfg, order) case None => None case Some(s) => ScanStep(m, cfg, s, x)
  {
    assert forall p :: p in order ==> p in order + [x];
    assert (order + [x])[..|order|] == order;
  }
}
