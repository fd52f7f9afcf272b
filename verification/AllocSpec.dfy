/** What CPU allocation promises, independently of how the allocator computes it. */
module AllocSpec {
  import opened CpuSets
  import opened Topology

  /** Units of allocation (packages or cores), keyed by the id they are visited by. */
  type Units = map<int, CPUSet>

  ghost predicate Separate(units: Units) {
    forall a, b :: a in units && b in units && a != b ==> units[a] !! units[b]
  }

  /** The online CPUs of each package, by package id. */
  ghost function PackageUnits(t: Topology, offline: CPUSet): Units {
    map p | p in PackageIds(t) :: PackageOf(t, p) - offline
  }

  /** The online threads of each core, by the lowest online thread. */
  ghost function CoreUnits(t: Topology, offline: CPUSet): Units
    requires NoDeadCore(t, offline)
  {
    map c | c in t && c == Min(t[c].threads - offline) :: t[c].threads - offline
  }

  lemma PackagesSeparate(t: Topology, offline: CPUSet)
    ensures Separate(PackageUnits(t, offline))
  {
  }

  lemma CoresSeparate(t: Topology, offline: CPUSet)
    requires ValidTopology(t) && NoDeadCore(t, offline)
    ensures Separate(CoreUnits(t, offline))
  {
  }

  /** The CPUs already taken from units visited before unit k. */
  ghost function Below(units: Units, k: int, taken: CPUSet): CPUSet {
    set c, j | j in units && j < k && c in units[j] && c in taken :: c
  }

  /** The unit of c, one of the given ones, is taken as a whole. */
  ghost predicate InWholeUnit(units: Units, done: CPUSet, taken: CPUSet, c: int) {
    exists k :: k in done && k in units && c in units[k] && units[k] <= taken
  }

  ghost predicate WholeUnits(units: Units, done: CPUSet, taken: CPUSet) {
    forall c :: c in taken ==> InWholeUnit(units, done, taken, c)
  }

  /** Unit k is taken exactly if it fits in what the units before it have left of the request. */
  ghost predicate TakenIffFits(units: Units, cnt: int, taken: CPUSet, k: int)
    requires k in units
  {
    units[k] <= taken <==> |units[k]| + |Below(units, k, taken)| <= cnt
  }

  /** First fit: whole units only, and among the units idle in from, in order of their ids,
      one is taken exactly if it still fits. */
  ghost predicate FirstFit(units: Units, from: CPUSet, cnt: int, taken: CPUSet) {
    && taken <= from
    && (taken == {} || |taken| <= cnt)
    && WholeUnits(units, units.Keys, taken)
    && forall k :: k in units && units[k] != {} && units[k] <= from ==> TakenIffFits(units, cnt, taken, k)
  }

  /** First fit over the units visited so far. */
  ghost predicate FirstFitSoFar(units: Units, from: CPUSet, cnt: int, taken: CPUSet, done: CPUSet) {
    && taken <= from
    && (taken == {} || |taken| <= cnt)
    && done <= units.Keys
    && WholeUnits(units, done, taken)
    && forall k :: k in done && units[k] != {} ==> TakenIffFits(units, cnt, taken, k)
  }

  lemma BelowAll(units: Units, from: CPUSet, cnt: int, taken: CPUSet, done: CPUSet, k: int)
    requires FirstFitSoFar(units, from, cnt, taken, done)
    requires forall j :: j in done ==> j < k
    ensures Below(units, k, taken) == taken
  {
    forall c | c in taken ensures c in Below(units, k, taken) {
      assert InWholeUnit(units, done, taken, c);
    }
  }

  lemma UnvisitedUntouched(units: Units, done: CPUSet, taken: CPUSet, k: int)
    requires Separate(units) && WholeUnits(units, done, taken)
    requires k in units && k !in done
    ensures units[k] !! taken
  {
    forall c | c in taken ensures c !in units[k] {
      assert InWholeUnit(units, done, taken, c);
    }
  }

  lemma EarlierUnitsKeep(units: Units, cnt: int, taken: CPUSet, j: int, k: int, taken': CPUSet)
    requires Separate(units) && j in units && k in units && j < k && units[j] != {}
    requires taken <= taken' <= taken + units[k]
    ensures TakenIffFits(units, cnt, taken', j) <==> TakenIffFits(units, cnt, taken, j)
  {
    BelowOnly(units, j, k, taken, taken');
    forall c | c in units[j] ensures c in taken' <==> c in taken {
    }
  }

  lemma BelowOnly(units: Units, j: int, k: int, taken: CPUSet, taken': CPUSet)
    requires Separate(units) && k in units && j <= k
    requires taken <= taken' <= taken + units[k]
    ensures Below(units, j, taken') == Below(units, j, taken)
  {
    var a, b := Below(units, j, taken), Below(units, j, taken');
    forall c ensures c in a <==> c in b {
      if c in b {
        var i :| i in units && i < j && c in units[i] && c in taken';
      }
    }
  }

  lemma WholeUnitsStep(units: Units, done: CPUSet, taken: CPUSet, k: int, taken': CPUSet)
    requires WholeUnits(units, done, taken)
    requires k in units && (taken' == taken || taken' == taken + units[k])
    ensures WholeUnits(units, done + {k}, taken')
  {
    forall c | c in taken' ensures InWholeUnit(units, done + {k}, taken', c) {
      if c in taken {
        assert InWholeUnit(units, done, taken, c);
        var j :| j in done && j in units && c in units[j] && units[j] <= taken;
        assert j in done + {k};
      } else {
        assert k in done + {k};
      }
    }
  }

  lemma NewUnitFits(units: Units, cnt: int, taken: CPUSet, k: int, taken': CPUSet)
    requires Separate(units) && k in units && units[k] != {} && units[k] !! taken
    requires Below(units, k, taken) == taken
    requires taken' == if |units[k]| <= cnt - |taken| then taken + units[k] else taken
    ensures TakenIffFits(units, cnt, taken', k)
  {
    BelowOnly(units, k, k, taken, taken');
    assert Pick(units[k]) !in taken;
  }

  lemma FirstFitStep(units: Units, from: CPUSet, cnt: int, taken: CPUSet, done: CPUSet, k: int, taken': CPUSet)
    requires Separate(units) && FirstFitSoFar(units, from, cnt, taken, done)
    requires k in units && units[k] <= from && forall j :: j in done ==> j < k
    requires taken' == if |units[k]| <= cnt - |taken| then taken + units[k] else taken
    ensures units[k] !! taken
    ensures FirstFitSoFar(units, from, cnt, taken', done + {k})
  {
    hide TakenIffFits, WholeUnits, Below;
    BelowAll(units, from, cnt, taken, done, k);
    UnvisitedUntouched(units, done, taken, k);
    WholeUnitsStep(units, done, taken, k, taken');
    forall j | j in done + {k} && units[j] != {} ensures TakenIffFits(units, cnt, taken', j) {
      if j == k {
        NewUnitFits(units, cnt, taken, k, taken');
      } else {
        EarlierUnitsKeep(units, cnt, taken, j, k, taken');
      }
    }
  }

  /** All idle units were visited, or the request was filled before the rest. */
  lemma FirstFitEnd(units: Units, from: CPUSet, cnt: int, taken: CPUSet, done: CPUSet)
    requires Separate(units) && FirstFitSoFar(units, from, cnt, taken, done)
    requires forall k :: k in units && units[k] <= from && k !in done ==>
        |taken| == cnt && forall j :: j in done ==> j < k
    ensures FirstFit(units, from, cnt, taken)
  {
    forall k | k in units && units[k] != {} && units[k] <= from ensures TakenIffFits(units, cnt, taken, k) {
      if k !in done {
        BelowAll(units, from, cnt, taken, done, k);
        UnvisitedUntouched(units, done, taken, k);
        assert Pick(units[k]) !in taken;
        assert |units[k]| > 0;
      }
    }
  }

  /** The idle units in the order they are visited. */
  ghost predicate VisitOrder(units: Units, from: CPUSet, ids: seq<int>) {
    Ascending(ids) && forall k :: k in ids <==> k in units && units[k] <= from
  }

  ghost function Visited(ids: seq<int>, i: int): CPUSet
    requires 0 <= i <= |ids|
  {
    set k | k in ids[..i]
  }

  /** The loop invariant of the first two phases after i units were visited. */
  ghost predicate Fitting(units: Units, from: CPUSet, cnt: int, taken: CPUSet, ids: seq<int>, i: int) {
    && 0 <= i <= |ids|
    && VisitOrder(units, from, ids)
    && FirstFitSoFar(units, from, cnt, taken, Visited(ids, i))
  }

  lemma FittingStart(units: Units, from: CPUSet, cnt: int, ids: seq<int>)
    requires VisitOrder(units, from, ids)
    ensures Fitting(units, from, cnt, {}, ids, 0)
  {
  }

  lemma FittingStep(units: Units, from: CPUSet, cnt: int, taken: CPUSet, ids: seq<int>, i: int)
    requires Separate(units) && Fitting(units, from, cnt, taken, ids, i) && i < |ids|
    ensures ids[i] in units && units[ids[i]] <= from && units[ids[i]] !! taken
    ensures Fitting(units, from, cnt, if |units[ids[i]]| <= cnt - |taken| then taken + units[ids[i]] else taken,
        ids, i + 1)
    ensures |taken + units[ids[i]]| == |taken| + |units[ids[i]]|
  {
    var k := ids[i];
    assert k in ids;
    assert Visited(ids, i + 1) == Visited(ids, i) + {k} by {
      assert ids[..i + 1] == ids[..i] + [k];
    }
    FirstFitStep(units, from, cnt, taken, Visited(ids, i), k,
        if |units[k]| <= cnt - |taken| then taken + units[k] else taken);
    UnionSize(taken, units[k]);
  }

  lemma FittingEnd(units: Units, from: CPUSet, cnt: int, taken: CPUSet, ids: seq<int>, i: int)
    requires Separate(units) && Fitting(units, from, cnt, taken, ids, i)
    requires i == |ids| || |taken| == cnt
    ensures FirstFit(units, from, cnt, taken) && taken <= from
  {
    var done := Visited(ids, i);
    forall k | k in units && units[k] <= from && k !in done
      ensures |taken| == cnt && forall j :: j in done ==> j < k
    {
      assert k in ids;
    }
    FirstFitEnd(units, from, cnt, taken, done);
  }

  /** The allocator's fields before and after a phase: CPUs went from the source to the result and were counted. */
  ghost predicate Moved(from0: CPUSet, cnt0: int, result0: CPUSet, from: CPUSet, cnt: int, result: CPUSet) {
    from <= from0 && result == result0 + (from0 - from) && cnt == cnt0 - |from0 - from|
  }

  /** The allocator's fields after i units were visited, from the fields at the start of the phase. */
  ghost predicate Progress(units: Units, ids: seq<int>, i: int, from0: CPUSet, cnt0: int, result0: CPUSet,
                           from: CPUSet, cnt: int, result: CPUSet)
  {
    && Moved(from0, cnt0, result0, from, cnt, result)
    && Fitting(units, from0, cnt0, from0 - from, ids, i)
  }

  lemma ProgressStart(units: Units, ids: seq<int>, from: CPUSet, cnt: int, result: CPUSet)
    requires VisitOrder(units, from, ids)
    ensures Progress(units, ids, 0, from, cnt, result, from, cnt, result)
  {
    assert from - from == {};
    assert result + {} == result;
    FittingStart(units, from, cnt, ids);
  }

  lemma ProgressStep(units: Units, ids: seq<int>, i: int, from0: CPUSet, cnt0: int, result0: CPUSet,
                     from: CPUSet, cnt: int, result: CPUSet)
    requires Separate(units) && Progress(units, ids, i, from0, cnt0, result0, from, cnt, result) && i < |ids|
    ensures ids[i] in units
    ensures
      var unit := units[ids[i]];
      if cnt >= |unit| then Progress(units, ids, i + 1, from0, cnt0, result0, from - unit, cnt - |unit|, result + unit)
      else Progress(units, ids, i + 1, from0, cnt0, result0, from, cnt, result)
  {
    var taken := from0 - from;
    FittingStep(units, from0, cnt0, taken, ids, i);
    var unit := units[ids[i]];
    assert from0 - (from - unit) == taken + unit;
    assert result0 + taken + unit == result0 + (taken + unit);
  }

  lemma ProgressEnd(units: Units, ids: seq<int>, i: int, from0: CPUSet, cnt0: int, result0: CPUSet,
                    from: CPUSet, cnt: int, result: CPUSet)
    requires Separate(units) && Progress(units, ids, i, from0, cnt0, result0, from, cnt, result)
    requires i == |ids| || cnt == 0
    ensures FirstFit(units, from0, cnt0, from0 - from) && Moved(from0, cnt0, result0, from, cnt, result)
  {
    FittingEnd(units, from0, cnt0, from0 - from, ids, i);
  }

  /** A non-empty unit left idle is larger than what remains of the request. */
  lemma IdleUnitsAreTooLarge(units: Units, from: CPUSet, cnt: int, taken: CPUSet, k: int)
    requires FirstFit(units, from, cnt, taken)
    requires k in units && units[k] != {} && units[k] <= from - taken
    ensures |units[k]| > cnt - |taken|
  {
    assert Pick(units[k]) !in taken;
    assert TakenIffFits(units, cnt, taken, k);
    SubsetSize(Below(units, k, taken), taken);
  }

  /** The CPUs of a set that the allocator knows and believes online. */
  function Usable(t: Topology, offline: CPUSet, from: CPUSet): CPUSet {
    from * t.Keys - offline
  }

  /** A result made of whole idle packages, then whole idle cores, then single threads. */
  ghost predicate ThreePhases(t: Topology, offline: CPUSet, from: CPUSet, cnt: int,
                              byPackage: CPUSet, byCore: CPUSet, result: CPUSet)
    requires NoDeadCore(t, offline)
  {
    && FirstFit(PackageUnits(t, offline), from, cnt, byPackage)
    && FirstFit(CoreUnits(t, offline), from - byPackage, cnt - |byPackage|, byCore)
    && byPackage + byCore <= result <= Usable(t, offline, from)
    && |result| == cnt
  }

  /** What the three phases return and leave of a set they were started on. */
  ghost predicate Allocated(t: Topology, offline: CPUSet, from: CPUSet, cnt: int, result: CPUSet, left: CPUSet)
    requires NoDeadCore(t, offline)
  {
    if 0 <= cnt <= |Usable(t, offline, from)| then
      && left == from - result
      && exists byPackage, byCore :: ThreePhases(t, offline, from, cnt, byPackage, byCore, result)
    else result == {} && left == from - Usable(t, offline, from)
  }

  /** Everything AllocateCpus can do with a set of CPUs and a count. */
  ghost predicate Outcome(t: Topology, offline: CPUSet, from: CPUSet, cnt: int,
                          result: CPUSet, left: CPUSet, ok: bool)
    requires NoDeadCore(t, offline)
  {
    if |from| < cnt then !ok && result == {} && left == from
    else ok && if |from| == cnt then result == from && left == {}
    else Allocated(t, offline, from, cnt, result, left)
  }

  /** The result and the rest partition the original set, and the result has the requested size,
      exactly when the request is for all CPUs or for at most the usable ones. */
  lemma ExactWhenEnough(t: Topology, offline: CPUSet, from: CPUSet, cnt: int, result: CPUSet, left: CPUSet, ok: bool)
    requires NoDeadCore(t, offline) && Outcome(t, offline, from, cnt, result, left, ok)
    ensures (ok && |result| == cnt && result !! left && result + left == from)
            <==> cnt == |from| || 0 <= cnt <= |Usable(t, offline, from)|
  {
    var usable := Usable(t, offline, from);
    SubsetSize(usable, from);
    PartitionIff(from, usable, cnt, result, left, ok);
  }

  lemma PartitionIff(from: CPUSet, usable: CPUSet, cnt: int, result: CPUSet, left: CPUSet, ok: bool)
    requires usable <= from && |usable| <= |from|
    requires
      if |from| < cnt then !ok && result == {} && left == from
      else ok && if |from| == cnt then result == from && left == {}
      else if 0 <= cnt <= |usable| then result <= usable && |result| == cnt && left == from - result
      else result == {} && left == from - usable
    ensures (ok && |result| == cnt && result !! left && result + left == from)
            <==> cnt == |from| || 0 <= cnt <= |usable|
  {
    if |from| != cnt && 0 <= cnt <= |usable| {
      assert result + (from - result) == from;
    }
  }

  /** In every case the result and the rest are separate parts of the original set. */
  lemma ResultsApart(t: Topology, offline: CPUSet, from: CPUSet, cnt: int, result: CPUSet, left: CPUSet, ok: bool)
    requires NoDeadCore(t, offline) && Outcome(t, offline, from, cnt, result, left, ok)
    ensures result !! left && result + left <= from
  {
  }

  /** No CPU is lost exactly if the request is for all CPUs or for at most the usable ones, or none is usable. */
  lemma RestKeptIff(t: Topology, offline: CPUSet, from: CPUSet, cnt: int, result: CPUSet, left: CPUSet)
    requires NoDeadCore(t, offline) && Outcome(t, offline, from, cnt, result, left, true)
    ensures left + result == from <==>
            cnt == |from| || 0 <= cnt <= |Usable(t, offline, from)| || Usable(t, offline, from) == {}
  {
    var usable := Usable(t, offline, from);
    NothingLostIff(from, usable, cnt, result, left);
  }

  lemma NothingLostIff(from: CPUSet, usable: CPUSet, cnt: int, result: CPUSet, left: CPUSet)
    requires usable <= from
    requires
      if |from| == cnt then result == from && left == {}
      else if 0 <= cnt <= |usable| then result <= from && left == from - result
      else result == {} && left == from - usable
    ensures left + result == from <==> cnt == |from| || 0 <= cnt <= |usable| || usable == {}
  {
    if |from| == cnt {
    } else if 0 <= cnt <= |usable| {
      assert from - result + result == from;
    } else if usable != {} {
      assert Pick(usable) !in left + result;
    }
  }

  /** When all CPUs of the set are usable, asking for all of them gives the same with and without the shortcut. */
  lemma ShortcutAgrees(t: Topology, offline: CPUSet, from: CPUSet, byPackage: CPUSet, byCore: CPUSet, result: CPUSet)
    requires NoDeadCore(t, offline) && Usable(t, offline, from) == from
    requires ThreePhases(t, offline, from, |from|, byPackage, byCore, result)
    ensures Outcome(t, offline, from, |from|, result, from - result, true)
  {
    SubsetSize(result, from);
  }

  /** Before single threads are taken, every core is either taken with all its online threads or not at all. */
  lemma CoreAligned(t: Topology, offline: CPUSet, from: CPUSet, cnt: int,
                    byPackage: CPUSet, byCore: CPUSet, result: CPUSet, c: int)
    requires ValidTopology(t) && NoDeadCore(t, offline)
    requires ThreePhases(t, offline, from, cnt, byPackage, byCore, result)
    requires c in t
    ensures t[c].threads - offline <= byPackage + byCore || t[c].threads !! (byPackage + byCore)
  {
    var core := t[c].threads;
    if core * byPackage != {} {
      var x := Pick(core * byPackage);
      assert InWholeUnit(PackageUnits(t, offline), PackageUnits(t, offline).Keys, byPackage, x);
      assert t[x].threads == core;
      assert forall y :: y in core - offline ==> y in PackageUnits(t, offline)[t[x].pkg];
    } else if core * byCore != {} {
      var x := Pick(core * byCore);
      assert InWholeUnit(CoreUnits(t, offline), CoreUnits(t, offline).Keys, byCore, x);
      assert t[x].threads == core;
    } else {
      assert core * (byPackage + byCore) == core * byPackage + core * byCore;
    }
  }

  /** An idle core is split only if fewer threads were still wanted than it has online. */
  lemma SplitOnlyForTheRest(t: Topology, offline: CPUSet, from: CPUSet, cnt: int,
                            byPackage: CPUSet, byCore: CPUSet, result: CPUSet, c: int)
    requires ValidTopology(t) && NoDeadCore(t, offline)
    requires ThreePhases(t, offline, from, cnt, byPackage, byCore, result)
    requires c in t && t[c].threads - offline <= from
    requires t[c].threads * result != {} && !(t[c].threads - offline <= result)
    ensures |result - byPackage - byCore| < |t[c].threads - offline|
  {
    hide *;
    var core := t[c].threads - offline;
    CoreAligned(t, offline, from, cnt, byPackage, byCore, result, c);
    PhasesAre(t, offline, from, cnt, byPackage, byCore, result);
    var k := CoreUnitOf(t, offline, c);
    SplitParts(t[c].threads, offline, from, byPackage, byCore, result);
    IdleUnitsAreTooLarge(CoreUnits(t, offline), from - byPackage, cnt - |byPackage|, byCore, k);
    WithoutTwo(result, byPackage, byCore);
  }

  lemma PhasesAre(t: Topology, offline: CPUSet, from: CPUSet, cnt: int,
                  byPackage: CPUSet, byCore: CPUSet, result: CPUSet)
    requires NoDeadCore(t, offline) && ThreePhases(t, offline, from, cnt, byPackage, byCore, result)
    ensures FirstFit(PackageUnits(t, offline), from, cnt, byPackage)
    ensures FirstFit(CoreUnits(t, offline), from - byPackage, cnt - |byPackage|, byCore)
    ensures byPackage !! byCore && byPackage + byCore <= result && |result| == cnt
  {
    hide PackageUnits, CoreUnits, WholeUnits, TakenIffFits, Usable;
  }

  /** The online threads of a core are a unit. */
  lemma CoreUnitOf(t: Topology, offline: CPUSet, c: int) returns (k: int)
    requires ValidTopology(t) && NoDeadCore(t, offline) && c in t
    ensures k in CoreUnits(t, offline) && CoreUnits(t, offline)[k] == t[c].threads - offline != {}
  {
    k := Min(t[c].threads - offline);
    assert t[k].threads == t[c].threads;
  }

  lemma SplitParts(threads: CPUSet, offline: CPUSet, from: CPUSet, byPackage: CPUSet, byCore: CPUSet, result: CPUSet)
    requires threads - offline <= byPackage + byCore || threads !! (byPackage + byCore)
    requires byPackage + byCore <= result && !(threads - offline <= result) && threads - offline <= from
    ensures threads - offline <= from - byPackage - byCore
  {
  }

  /** After each of the first two phases, a non-empty package or core whose online CPUs are all
      still unallocated is larger than the remaining count. */
  lemma PhasesAreMaximal(t: Topology, offline: CPUSet, from: CPUSet, cnt: int,
                         byPackage: CPUSet, byCore: CPUSet, result: CPUSet)
    requires ValidTopology(t) && NoDeadCore(t, offline)
    requires ThreePhases(t, offline, from, cnt, byPackage, byCore, result)
    ensures forall p :: p in PackageIds(t) && {} != PackageOf(t, p) - offline <= from - byPackage ==>
              |PackageOf(t, p) - offline| > cnt - |byPackage|
    ensures forall c :: c in t && t[c].threads - offline <= from - byPackage - byCore ==>
              |t[c].threads - offline| > cnt - |byPackage| - |byCore|
  {
    PhasesAre(t, offline, from, cnt, byPackage, byCore, result);
    forall p | p in PackageIds(t) && {} != PackageOf(t, p) - offline <= from - byPackage
      ensures |PackageOf(t, p) - offline| > cnt - |byPackage|
    {
      hide FirstFit, Usable, ThreePhases, ValidTopology, NoDeadCore;
      assert PackageUnits(t, offline)[p] == PackageOf(t, p) - offline;
      hide PackageUnits, PackageOf, PackageIds;
      IdleUnitsAreTooLarge(PackageUnits(t, offline), from, cnt, byPackage, p);
    }
    forall c | c in t && t[c].threads - offline <= from - byPackage - byCore
      ensures |t[c].threads - offline| > cnt - |byPackage| - |byCore|
    {
      hide *;
      var k := CoreUnitOf(t, offline, c);
      IdleUnitsAreTooLarge(CoreUnits(t, offline), from - byPackage, cnt - |byPackage|, byCore, k);
    }
  }

  /** Packages are taken in the order of their ids: one whose online CPUs are all idle is taken as a whole exactly if it
      fits in what is left of the request by those of lower ids, and no other package is touched. */
  lemma PackagesInOrder(t: Topology, offline: CPUSet, from: CPUSet, cnt: int,
                        byPackage: CPUSet, byCore: CPUSet, result: CPUSet, p: int)
    requires ValidTopology(t) && NoDeadCore(t, offline)
    requires ThreePhases(t, offline, from, cnt, byPackage, byCore, result)
    requires exists c :: c in t && t[c].pkg == p
    ensures
      var online := set c | c in t && t[c].pkg == p && c !in offline;
      var lower := set c | c in byPackage && c in t && t[c].pkg < p;
      && (online <= byPackage || online !! byPackage)
      && (online != {} && online <= from ==> (online <= byPackage <==> |online| + |lower| <= cnt))
  {
    PhasesAre(t, offline, from, cnt, byPackage, byCore, result);
    var units := PackageUnits(t, offline);
    PackagesSeparate(t, offline);
    var online := set c | c in t && t[c].pkg == p && c !in offline;
    var lower := set c | c in byPackage && c in t && t[c].pkg < p;
    PackageUnitIs(t, offline, p);
    UnitWholeOrNot(units, from, cnt, byPackage, p);
    LowerPackages(t, offline, byPackage, p);
    hide PackageUnits, PackageOf, PackageIds, ThreePhases, ValidTopology, NoDeadCore, WholeUnits, Below;
    if online != {} && online <= from {
      assert TakenIffFits(units, cnt, byPackage, p);
      assert byPackage <= from;
      InUnits(t, offline, from, cnt, byPackage);
      assert Below(units, p, byPackage) == lower;
    }
  }

  lemma PackageUnitIs(t: Topology, offline: CPUSet, p: int)
    requires exists c :: c in t && t[c].pkg == p
    ensures p in PackageUnits(t, offline)
    ensures PackageUnits(t, offline)[p] == set c | c in t && t[c].pkg == p && c !in offline
  {
  }

  lemma UnitWholeOrNot(units: Units, from: CPUSet, cnt: int, taken: CPUSet, k: int)
    requires Separate(units) && FirstFit(units, from, cnt, taken) && k in units
    ensures units[k] <= taken || units[k] !! taken
  {
    hide TakenIffFits;
    DisjointIff(units[k], taken);
    if !(units[k] !! taken) {
      var x :| x in units[k] && x in taken;
      assert InWholeUnit(units, units.Keys, taken, x);
    }
  }

  lemma InUnits(t: Topology, offline: CPUSet, from: CPUSet, cnt: int, taken: CPUSet)
    requires FirstFit(PackageUnits(t, offline), from, cnt, taken)
    ensures forall c :: c in taken ==> c in t && c !in offline
  {
    forall c | c in taken ensures c in t && c !in offline {
      assert InWholeUnit(PackageUnits(t, offline), PackageUnits(t, offline).Keys, taken, c);
    }
  }

  lemma LowerPackages(t: Topology, offline: CPUSet, taken: CPUSet, p: int)
    ensures (forall c :: c in taken ==> c in t && c !in offline) ==>
              Below(PackageUnits(t, offline), p, taken) == set c | c in taken && c in t && t[c].pkg < p
  {
    if forall c :: c in taken ==> c in t && c !in offline {
      var units := PackageUnits(t, offline);
      forall c ensures c in Below(units, p, taken) <==> c in taken && c in t && t[c].pkg < p {
        if c in taken && t[c].pkg < p {
          assert t[c].pkg in units && c in units[t[c].pkg];
        }
      }
    }
  }

  /** Cores are taken in the order of their lowest online threads: one whose online threads are all idle is taken as a
      whole exactly if it fits in what is left of the request by the packages and by lower cores, and no other core is
      touched. */
  lemma CoresInOrder(t: Topology, offline: CPUSet, from: CPUSet, cnt: int,
                     byPackage: CPUSet, byCore: CPUSet, result: CPUSet, k: int)
    requires ValidTopology(t) && NoDeadCore(t, offline)
    requires ThreePhases(t, offline, from, cnt, byPackage, byCore, result)
    requires k in t && k !in offline && forall d :: d in t[k].threads && d !in offline ==> k <= d
    ensures
      var online := set d | d in t[k].threads && d !in offline;
      var lower := set c | c in byCore && c in t && exists d :: d in t[c].threads && d !in offline && d < k;
      && (online <= byCore || online !! byCore)
      && (online <= from - byPackage ==> (online <= byCore <==> |online| + |lower| <= cnt - |byPackage|))
  {
    hide *;
    PhasesAre(t, offline, from, cnt, byPackage, byCore, result);
    CoresSeparate(t, offline);
    CoreUnitAt(t, offline, k);
    var units := CoreUnits(t, offline);
    UnitWholeOrNot(units, from - byPackage, cnt - |byPackage|, byCore, k);
    LowerCores(t, offline, from - byPackage, cnt - |byPackage|, byCore, k);
    assert t[k].threads - offline == set d | d in t[k].threads && d !in offline;
    if t[k].threads - offline <= from - byPackage {
      UnitFits(units, from - byPackage, cnt - |byPackage|, byCore, k);
    }
  }

  lemma UnitFits(units: Units, from: CPUSet, cnt: int, taken: CPUSet, k: int)
    requires FirstFit(units, from, cnt, taken) && k in units && units[k] != {} && units[k] <= from
    ensures units[k] <= taken <==> |units[k]| + |Below(units, k, taken)| <= cnt
  {
    hide WholeUnits, Below;
    assert TakenIffFits(units, cnt, taken, k);
  }

  lemma CoreUnitAt(t: Topology, offline: CPUSet, k: int)
    requires ValidTopology(t) && NoDeadCore(t, offline)
    requires k in t && k !in offline && forall d :: d in t[k].threads && d !in offline ==> k <= d
    ensures k in CoreUnits(t, offline) && CoreUnits(t, offline)[k] == t[k].threads - offline != {}
  {
    assert k in t[k].threads - offline;
    assert Min(t[k].threads - offline) == k;
  }

  lemma LowerCores(t: Topology, offline: CPUSet, from: CPUSet, cnt: int, taken: CPUSet, k: int)
    requires ValidTopology(t) && NoDeadCore(t, offline) && FirstFit(CoreUnits(t, offline), from, cnt, taken)
    ensures Below(CoreUnits(t, offline), k, taken) ==
            set c | c in taken && c in t && exists d :: d in t[c].threads && d !in offline && d < k
  {
    var units := CoreUnits(t, offline);
    CoresSeparate(t, offline);
    hide FirstFit, CoreUnits, ValidTopology, NoDeadCore;
    forall c
      ensures c in Below(units, k, taken) <==>
              c in taken && c in t && exists d :: d in t[c].threads && d !in offline && d < k
    {
      if c in taken {
        var j := UnitOfTaken(t, offline, from, cnt, taken, c);
      }
    }
  }

  /** The unit a taken CPU belongs to is found under its core's lowest online thread. */
  lemma UnitOfTaken(t: Topology, offline: CPUSet, from: CPUSet, cnt: int, taken: CPUSet, c: int) returns (j: int)
    requires ValidTopology(t) && NoDeadCore(t, offline) && FirstFit(CoreUnits(t, offline), from, cnt, taken)
    requires c in taken
    ensures c in t && j in CoreUnits(t, offline) && c in CoreUnits(t, offline)[j]
    ensures j in t[c].threads && j !in offline && forall d :: d in t[c].threads && d !in offline ==> j <= d
  {
    hide *;
    j := TakenInUnit(CoreUnits(t, offline), from, cnt, taken, c);
    CoreOfUnit(t, offline, j, c);
  }

  lemma TakenInUnit(units: Units, from: CPUSet, cnt: int, taken: CPUSet, c: int) returns (j: int)
    requires FirstFit(units, from, cnt, taken) && c in taken
    ensures j in units && c in units[j]
  {
    assert InWholeUnit(units, units.Keys, taken, c);
    hide FirstFit;
    j :| j in units && c in units[j];
  }

  lemma CoreOfUnit(t: Topology, offline: CPUSet, j: int, c: int)
    requires ValidTopology(t) && NoDeadCore(t, offline) && j in CoreUnits(t, offline) && c in CoreUnits(t, offline)[j]
    ensures c in t && j in t[c].threads && j !in offline
    ensures forall d :: d in t[c].threads && d !in offline ==> j <= d
  {
    assert t[c].threads == t[j].threads && j == Min(t[j].threads - offline);
    forall d | d in t[c].threads && d !in offline ensures j <= d {
      assert d in t[j].threads - offline;
    }
  }

  /** The allocator's fields while single threads are taken: which threads were not visited yet, and what was moved. */
  ghost predicate ThreadProgress(usable: CPUSet, cores: CPUSet, from0: CPUSet, cnt0: int, result0: CPUSet,
                                 from: CPUSet, cnt: int, result: CPUSet)
  {
    && usable <= from0 && cores <= usable
    && from == from0 - (usable - cores)
    && result == result0 + (usable - cores)
    && cnt == cnt0 - |usable - cores|
    && (1 <= cnt0 ==> 0 <= cnt)
  }

  lemma ThreadStart(usable: CPUSet, from: CPUSet, cnt: int, result: CPUSet)
    requires usable <= from
    ensures ThreadProgress(usable, usable, from, cnt, result, from, cnt, result)
  {
    assert usable - usable == {};
  }

  lemma ThreadStep(usable: CPUSet, cores: CPUSet, from0: CPUSet, cnt0: int, result0: CPUSet,
                   from: CPUSet, cnt: int, result: CPUSet, id: int)
    requires ThreadProgress(usable, cores, from0, cnt0, result0, from, cnt, result)
    requires id in cores && cnt != 0
    ensures ThreadProgress(usable, cores - {id}, from0, cnt0, result0, from - {id}, cnt - 1, result + {id})
  {
    assert usable - (cores - {id}) == usable - cores + {id};
    assert result0 + (usable - cores + {id}) == result0 + (usable - cores) + {id};
  }

  lemma ThreadEnd(usable: CPUSet, cores: CPUSet, from0: CPUSet, cnt0: int, result0: CPUSet,
                  from: CPUSet, cnt: int, result: CPUSet)
    requires ThreadProgress(usable, cores, from0, cnt0, result0, from, cnt, result)
    requires cores == {} || cnt == 0
    ensures from0 - from == usable - cores
    ensures if 1 <= cnt0 <= |usable| then cnt == 0 else cnt0 != 0 ==> from0 - from == usable
  {
    assert from0 - from == usable - cores;
    SubsetSize(usable - cores, usable);
    if cores == {} {
      assert usable - cores == usable;
    } else if |usable| == |usable - cores| {
      assert Pick(cores) in usable - cores;
    }
  }

  /** First fit only takes known online CPUs when its units hold no others. */
  lemma FirstFitUsable(t: Topology, offline: CPUSet, units: Units, from: CPUSet, cnt: int, taken: CPUSet)
    requires FirstFit(units, from, cnt, taken)
    requires forall k :: k in units ==> units[k] <= t.Keys - offline
    ensures taken <= Usable(t, offline, from)
  {
    forall c | c in taken ensures c in Usable(t, offline, from) {
      assert InWholeUnit(units, units.Keys, taken, c);
    }
  }

  lemma NothingFitsZero(units: Units, from: CPUSet)
    ensures FirstFit(units, from, 0, {})
  {
    forall k | k in units && units[k] != {} ensures TakenIffFits(units, 0, {}, k) {
      assert Pick(units[k]) !in {};
      assert |units[k]| > 0;
    }
  }

  /** The first two phases moved byPackage and byCore out of the source. */
  ghost predicate TwoPhases(t: Topology, offline: CPUSet, from: CPUSet, cnt: int, byPackage: CPUSet, byCore: CPUSet)
    requires NoDeadCore(t, offline)
  {
    && FirstFit(PackageUnits(t, offline), from, cnt, byPackage)
    && FirstFit(CoreUnits(t, offline), from - byPackage, cnt - |byPackage|, byCore)
  }

  lemma TwoPhasesUsable(t: Topology, offline: CPUSet, from: CPUSet, cnt: int, byPackage: CPUSet, byCore: CPUSet)
    requires ValidTopology(t) && NoDeadCore(t, offline)
    requires TwoPhases(t, offline, from, cnt, byPackage, byCore)
    ensures byPackage !! byCore && byPackage + byCore <= Usable(t, offline, from)
    ensures Usable(t, offline, from - byPackage - byCore) == Usable(t, offline, from) - (byPackage + byCore)
    ensures |Usable(t, offline, from - byPackage - byCore)| == |Usable(t, offline, from)| - |byPackage| - |byCore|
    ensures |byPackage| + |byCore| <= cnt || (byPackage == {} && byCore == {})
  {
    UnitsUsable(t, offline);
    TwoPhasesFit(t, offline, from, cnt, byPackage, byCore);
    var packages, cores := PackageUnits(t, offline), CoreUnits(t, offline);
    hide *;
    FirstFitUsable(t, offline, packages, from, cnt, byPackage);
    FirstFitUsable(t, offline, cores, from - byPackage, cnt - |byPackage|, byCore);
    UsableParts(t, offline, from, byPackage, byCore);
  }

  lemma UnitsUsable(t: Topology, offline: CPUSet)
    requires ValidTopology(t) && NoDeadCore(t, offline)
    ensures forall k :: k in PackageUnits(t, offline) ==> PackageUnits(t, offline)[k] <= t.Keys - offline
    ensures forall k :: k in CoreUnits(t, offline) ==> CoreUnits(t, offline)[k] <= t.Keys - offline
  {
  }

  lemma TwoPhasesFit(t: Topology, offline: CPUSet, from: CPUSet, cnt: int, byPackage: CPUSet, byCore: CPUSet)
    requires NoDeadCore(t, offline) && TwoPhases(t, offline, from, cnt, byPackage, byCore)
    ensures FirstFit(PackageUnits(t, offline), from, cnt, byPackage)
    ensures FirstFit(CoreUnits(t, offline), from - byPackage, cnt - |byPackage|, byCore)
    ensures |byPackage| + |byCore| <= cnt || (byPackage == {} && byCore == {})
  {
    hide PackageUnits, CoreUnits, WholeUnits, TakenIffFits;
  }

  lemma UsableParts(t: Topology, offline: CPUSet, from: CPUSet, byPackage: CPUSet, byCore: CPUSet)
    requires byPackage <= Usable(t, offline, from) && byCore <= Usable(t, offline, from - byPackage)
    ensures byPackage !! byCore && byPackage + byCore <= Usable(t, offline, from)
    ensures Usable(t, offline, from - byPackage - byCore) == Usable(t, offline, from) - (byPackage + byCore)
    ensures |Usable(t, offline, from - byPackage - byCore)| == |Usable(t, offline, from)| - |byPackage| - |byCore|
  {
    UsableRest(t, offline, from, byPackage, byCore);
    hide *;
    WithoutTwo(Usable(t, offline, from), byPackage, byCore);
  }

  lemma UsableRest(t: Topology, offline: CPUSet, from: CPUSet, byPackage: CPUSet, byCore: CPUSet)
    requires byPackage <= Usable(t, offline, from) && byCore <= Usable(t, offline, from - byPackage)
    ensures byPackage !! byCore && byPackage + byCore <= Usable(t, offline, from)
    ensures Usable(t, offline, from - byPackage - byCore) == Usable(t, offline, from) - (byPackage + byCore)
  {
  }

  /** The three phases together filled the request. */
  lemma RequestFilled(t: Topology, offline: CPUSet, from: CPUSet, cnt: int,
                      byPackage: CPUSet, byCore: CPUSet, threads: CPUSet)
    requires ValidTopology(t) && NoDeadCore(t, offline)
    requires TwoPhases(t, offline, from, cnt, byPackage, byCore)
    requires threads <= Usable(t, offline, from - byPackage - byCore)
    requires |byPackage| + |byCore| + |threads| == cnt
    ensures Allocated(t, offline, from, cnt, byPackage + byCore + threads, from - byPackage - byCore - threads)
  {
    hide *;
    TwoPhasesUsable(t, offline, from, cnt, byPackage, byCore);
    TwoPhasesFit(t, offline, from, cnt, byPackage, byCore);
    var result := byPackage + byCore + threads;
    FilledParts(Usable(t, offline, from), from, byPackage, byCore, threads);
    IsFilled(t, offline, from, cnt, byPackage, byCore, result);
  }

  lemma FilledParts(usable: CPUSet, from: CPUSet, a: CPUSet, b: CPUSet, c: CPUSet)
    requires a !! b && a + b <= usable && c <= usable - (a + b)
    ensures a + b <= a + b + c <= usable && |a + b + c| == |a| + |b| + |c|
    ensures 0 <= |a| + |b| + |c| <= |usable|
    ensures from - a - b - c == from - (a + b + c)
  {
    UnionSize(a, b);
    UnionSize(a + b, c);
    SubsetSize(a + b + c, usable);
  }

  lemma IsFilled(t: Topology, offline: CPUSet, from: CPUSet, cnt: int,
                 byPackage: CPUSet, byCore: CPUSet, result: CPUSet)
    requires NoDeadCore(t, offline) && 0 <= cnt <= |Usable(t, offline, from)|
    requires FirstFit(PackageUnits(t, offline), from, cnt, byPackage)
    requires FirstFit(CoreUnits(t, offline), from - byPackage, cnt - |byPackage|, byCore)
    requires byPackage + byCore <= result <= Usable(t, offline, from) && |result| == cnt
    ensures Allocated(t, offline, from, cnt, result, from - result)
  {
    hide PackageUnits, CoreUnits, FirstFit, Usable;
    assert ThreePhases(t, offline, from, cnt, byPackage, byCore, result);
  }

  /** The thread phase ran out of usable CPUs. */
  lemma RequestUnfilled(t: Topology, offline: CPUSet, from: CPUSet, cnt: int,
                        byPackage: CPUSet, byCore: CPUSet, threads: CPUSet)
    requires ValidTopology(t) && NoDeadCore(t, offline)
    requires TwoPhases(t, offline, from, cnt, byPackage, byCore)
    requires threads == Usable(t, offline, from - byPackage - byCore)
    requires cnt - |byPackage| - |byCore| != 0
    requires !(1 <= cnt - |byPackage| - |byCore| <= |threads|)
    ensures Allocated(t, offline, from, cnt, {}, from - byPackage - byCore - threads)
  {
    hide *;
    TwoPhasesUsable(t, offline, from, cnt, byPackage, byCore);
    UnfilledParts(Usable(t, offline, from), from, byPackage, byCore);
    NothingAllocated(t, offline, from, cnt);
  }

  lemma UnfilledParts(usable: CPUSet, from: CPUSet, a: CPUSet, b: CPUSet)
    requires a + b <= usable
    ensures from - a - b - (usable - (a + b)) == from - usable
    ensures |a| >= 0 && |b| >= 0 && (a == {} && b == {} ==> |a| + |b| == 0)
  {
  }

  lemma NothingAllocated(t: Topology, offline: CPUSet, from: CPUSet, cnt: int)
    requires NoDeadCore(t, offline) && !(0 <= cnt <= |Usable(t, offline, from)|)
    ensures Allocated(t, offline, from, cnt, {}, from - Usable(t, offline, from))
  {
    hide Usable;
  }

  /** What a phase moved. */
  lemma MovedParts(from0: CPUSet, cnt0: int, result0: CPUSet, from: CPUSet, cnt: int, result: CPUSet)
    requires Moved(from0, cnt0, result0, from, cnt, result)
    ensures from0 - (from0 - from) == from && result == result0 + (from0 - from) && cnt0 - |from0 - from| == cnt
  {
  }

  lemma TwoPhasesAre(t: Topology, offline: CPUSet, from: CPUSet, cnt: int, byPackage: CPUSet, byCore: CPUSet)
    requires NoDeadCore(t, offline)
    requires FirstFit(PackageUnits(t, offline), from, cnt, byPackage)
    requires FirstFit(CoreUnits(t, offline), from - byPackage, cnt - |byPackage|, byCore)
    ensures TwoPhases(t, offline, from, cnt, byPackage, byCore)
  {
    hide PackageUnits, CoreUnits, FirstFit;
  }

  lemma NoneUsable(t: Topology, offline: CPUSet, from: CPUSet)
    ensures {} <= Usable(t, offline, from)
  {
  }

  lemma AfterPackages(t: Topology, offline: CPUSet, from0: CPUSet, cnt0: int, from1: CPUSet, result1: CPUSet)
    requires ValidTopology(t) && NoDeadCore(t, offline)
    requires Moved(from0, cnt0, {}, from1, 0, result1)
    requires FirstFit(PackageUnits(t, offline), from0, cnt0, from0 - from1)
    ensures Allocated(t, offline, from0, cnt0, result1, from1)
  {
    hide *;
    var byPackage := from0 - from1;
    MovedParts(from0, cnt0, {}, from1, 0, result1);
    NothingFitsZero(CoreUnits(t, offline), from1);
    TwoPhasesAre(t, offline, from0, cnt0, byPackage, {});
    NoneUsable(t, offline, from0 - byPackage - {});
    RequestFilled(t, offline, from0, cnt0, byPackage, {}, {});
    assert byPackage + {} + {} == {} + byPackage && from0 - byPackage - {} - {} == from1;
  }

  lemma AfterCores(t: Topology, offline: CPUSet, from0: CPUSet, cnt0: int, from1: CPUSet, cnt1: int, result1: CPUSet,
                   from2: CPUSet, result2: CPUSet)
    requires ValidTopology(t) && NoDeadCore(t, offline)
    requires Moved(from0, cnt0, {}, from1, cnt1, result1) && Moved(from1, cnt1, result1, from2, 0, result2)
    requires FirstFit(PackageUnits(t, offline), from0, cnt0, from0 - from1)
    requires FirstFit(CoreUnits(t, offline), from1, cnt1, from1 - from2)
    ensures Allocated(t, offline, from0, cnt0, result2, from2)
  {
    hide *;
    var byPackage, byCore := from0 - from1, from1 - from2;
    MovedParts(from0, cnt0, {}, from1, cnt1, result1);
    MovedParts(from1, cnt1, result1, from2, 0, result2);
    TwoPhasesAre(t, offline, from0, cnt0, byPackage, byCore);
    NoneUsable(t, offline, from0 - byPackage - byCore);
    RequestFilled(t, offline, from0, cnt0, byPackage, byCore, {});
    assert byPackage + byCore + {} == {} + byPackage + byCore && from0 - byPackage - byCore - {} == from2;
  }

  lemma AfterThreads(t: Topology, offline: CPUSet, from0: CPUSet, cnt0: int, from1: CPUSet, cnt1: int, result1: CPUSet,
                     from2: CPUSet, cnt2: int, result2: CPUSet, from3: CPUSet, cnt3: int, result3: CPUSet)
    requires ValidTopology(t) && NoDeadCore(t, offline)
    requires Moved(from0, cnt0, {}, from1, cnt1, result1) && Moved(from1, cnt1, result1, from2, cnt2, result2)
    requires FirstFit(PackageUnits(t, offline), from0, cnt0, from0 - from1)
    requires FirstFit(CoreUnits(t, offline), from1, cnt1, from1 - from2)
    requires cnt2 != 0 && Moved(from2, cnt2, result2, from3, cnt3, result3)
    requires ThreadsTaken(t, offline, from2, cnt2, from3, cnt3)
    ensures Allocated(t, offline, from0, cnt0, if cnt3 == 0 then result3 else {}, from3)
  {
    hide *;
    MovedThrice(from0, cnt0, from1, cnt1, result1, from2, cnt2, result2, from3, cnt3, result3);
    ThreadsAre(t, offline, from2, cnt2, from3, cnt3);
    PhasesDone(t, offline, from0, cnt0, from0 - from1, from1 - from2, from2 - from3,
               from1, cnt1, from2, cnt2, from3, cnt3, result3);
  }

  /** All three phases are done, having moved the given CPUs. */
  lemma PhasesDone(t: Topology, offline: CPUSet, from0: CPUSet, cnt0: int,
                   byPackage: CPUSet, byCore: CPUSet, threads: CPUSet,
                   from1: CPUSet, cnt1: int, from2: CPUSet, cnt2: int, from3: CPUSet, cnt3: int, result3: CPUSet)
    requires ValidTopology(t) && NoDeadCore(t, offline)
    requires from0 - byPackage == from1 && from0 - byPackage - byCore == from2 && from2 - threads == from3
    requires cnt1 == cnt0 - |byPackage| && cnt2 == cnt1 - |byCore| && cnt3 == cnt2 - |threads| && cnt2 != 0
    requires result3 == byPackage + byCore + threads
    requires FirstFit(PackageUnits(t, offline), from0, cnt0, byPackage)
    requires FirstFit(CoreUnits(t, offline), from1, cnt1, byCore)
    requires threads <= Usable(t, offline, from2)
    requires cnt3 != 0 ==> threads == Usable(t, offline, from2) && !(1 <= cnt2 <= |threads|)
    ensures Allocated(t, offline, from0, cnt0, if cnt3 == 0 then result3 else {}, from3)
  {
    hide *;
    TwoPhasesAre(t, offline, from0, cnt0, byPackage, byCore);
    if cnt3 == 0 {
      RequestFilled(t, offline, from0, cnt0, byPackage, byCore, threads);
    } else {
      RequestUnfilled(t, offline, from0, cnt0, byPackage, byCore, threads);
    }
  }

  lemma MovedThrice(from0: CPUSet, cnt0: int, from1: CPUSet, cnt1: int, result1: CPUSet,
                    from2: CPUSet, cnt2: int, result2: CPUSet, from3: CPUSet, cnt3: int, result3: CPUSet)
    requires Moved(from0, cnt0, {}, from1, cnt1, result1) && Moved(from1, cnt1, result1, from2, cnt2, result2)
    requires Moved(from2, cnt2, result2, from3, cnt3, result3)
    ensures
      var byPackage, byCore, threads := from0 - from1, from1 - from2, from2 - from3;
      && from0 - byPackage == from1 && from0 - byPackage - byCore == from2 && from2 - threads == from3
      && cnt1 == cnt0 - |byPackage| && cnt2 == cnt1 - |byCore| && cnt3 == cnt2 - |threads|
      && result3 == byPackage + byCore + threads
  {
    MovedParts(from0, cnt0, {}, from1, cnt1, result1);
    MovedParts(from1, cnt1, result1, from2, cnt2, result2);
    MovedParts(from2, cnt2, result2, from3, cnt3, result3);
    hide *;
    assert {} + (from0 - from1) == from0 - from1;
  }

  lemma ThreadsAre(t: Topology, offline: CPUSet, from0: CPUSet, cnt0: int, from: CPUSet, cnt: int)
    requires ThreadsTaken(t, offline, from0, cnt0, from, cnt) && cnt == cnt0 - |from0 - from|
    ensures from0 - from <= Usable(t, offline, from0)
    ensures cnt != 0 ==> from0 - from == Usable(t, offline, from0) && !(1 <= cnt0 <= |from0 - from|)
  {
    hide Usable;
  }

  /** The thread phase fills the request if it can, and else takes every usable thread. */
  ghost predicate ThreadsTaken(t: Topology, offline: CPUSet, from0: CPUSet, cnt0: int, from: CPUSet, cnt: int) {
    var usable := Usable(t, offline, from0);
    && from0 - from <= usable
    && if 1 <= cnt0 <= |usable| then cnt == 0 else from0 - from == usable
  }
}
