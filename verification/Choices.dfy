/** Which CPUs the allocator can give: what whole packages and cores it is bound to take, and what is left to its
    preferences among threads. */
module Choices {
  import opened CpuSets
  import opened Topology
  import opened AllocSpec

  // First fit has exactly one result

  /** The idle units in the order they are visited. */
  ghost function IdleIds(units: Units, from: CPUSet): (ids: seq<int>)
    ensures VisitOrder(units, from, ids)
  {
    SortedSlice(set k | k in units && units[k] <= from)
  }

  /** What is taken of the first i units, one after the other: each that still fits. */
  ghost function Greedy(units: Units, cnt: int, ids: seq<int>, i: nat): CPUSet
    requires i <= |ids| && forall k :: k in ids ==> k in units
  {
    if i == 0 then {} else
    var taken, unit := Greedy(units, cnt, ids, i - 1), units[ids[i - 1]];
    if |unit| <= cnt - |taken| then taken + unit else taken
  }

  /** What is taken of all idle units. */
  ghost function GreedyAll(units: Units, from: CPUSet, cnt: int): CPUSet {
    var ids := IdleIds(units, from);
    Greedy(units, cnt, ids, |ids|)
  }

  lemma {:induction false} GreedyFits(units: Units, from: CPUSet, cnt: int, ids: seq<int>, i: nat)
    requires Separate(units) && VisitOrder(units, from, ids) && i <= |ids|
    ensures Fitting(units, from, cnt, Greedy(units, cnt, ids, i), ids, i)
  {
    hide Fitting, Separate;
    if i == 0 {
      FittingStart(units, from, cnt, ids);
    } else {
      GreedyFits(units, from, cnt, ids, i - 1);
      FittingStep(units, from, cnt, Greedy(units, cnt, ids, i - 1), ids, i - 1);
    }
  }

  /** Two first fits take the same of the first i idle units. */
  lemma {:induction false} SameUnits(units: Units, from: CPUSet, cnt: int, a: CPUSet, b: CPUSet, ids: seq<int>, i: nat)
    requires Separate(units) && VisitOrder(units, from, ids) && i <= |ids|
    requires FirstFit(units, from, cnt, a) && FirstFit(units, from, cnt, b)
    ensures forall j :: 0 <= j < i ==> ids[j] in units && (units[ids[j]] <= a <==> units[ids[j]] <= b)
  {
    hide FirstFit, Separate;
    if i > 0 {
      SameUnits(units, from, cnt, a, b, ids, i - 1);
      var k := ids[i - 1];
      assert k in ids;
      SameBelow(units, from, cnt, a, b, ids, i - 1);
      SameBelow(units, from, cnt, b, a, ids, i - 1);
      FitsAlike(units, from, cnt, a, b, k);
    }
  }

  lemma SameBelow(units: Units, from: CPUSet, cnt: int, a: CPUSet, b: CPUSet, ids: seq<int>, i: nat)
    requires Separate(units) && VisitOrder(units, from, ids) && i < |ids| && FirstFit(units, from, cnt, a)
    requires forall j :: 0 <= j < i ==> ids[j] in units && (units[ids[j]] <= a <==> units[ids[j]] <= b)
    ensures Below(units, ids[i], a) <= Below(units, ids[i], b)
  {
    hide TakenIffFits;
    forall c | c in Below(units, ids[i], a) ensures c in Below(units, ids[i], b) {
      var j :| j in units && j < ids[i] && c in units[j] && c in a;
      assert InWholeUnit(units, units.Keys, a, c);
      assert units[j] <= a;
      assert j in ids;
    }
  }

  lemma FitsAlike(units: Units, from: CPUSet, cnt: int, a: CPUSet, b: CPUSet, k: int)
    requires FirstFit(units, from, cnt, a) && FirstFit(units, from, cnt, b) && k in units && units[k] <= from
    requires Below(units, k, a) == Below(units, k, b)
    ensures units[k] <= a <==> units[k] <= b
  {
    hide WholeUnits, Below;
  }

  lemma WholeIncluded(units: Units, from: CPUSet, cnt: int, a: CPUSet, b: CPUSet, ids: seq<int>)
    requires VisitOrder(units, from, ids) && FirstFit(units, from, cnt, a)
    requires forall j :: 0 <= j < |ids| ==> ids[j] in units && (units[ids[j]] <= a <==> units[ids[j]] <= b)
    ensures a <= b
  {
    hide TakenIffFits;
    forall c | c in a ensures c in b {
      assert InWholeUnit(units, units.Keys, a, c);
      var k :| k in units && c in units[k] && units[k] <= a;
      assert k in ids;
    }
  }

  /** First fit, a property of what was taken, has exactly one solution: what the greedy visit takes. */
  lemma FirstFitIff(units: Units, from: CPUSet, cnt: int, taken: CPUSet)
    requires Separate(units)
    ensures FirstFit(units, from, cnt, taken) <==> taken == GreedyAll(units, from, cnt)
  {
    var ids, greedy := IdleIds(units, from), GreedyAll(units, from, cnt);
    hide FirstFit, Separate, IdleIds;
    GreedyFits(units, from, cnt, ids, |ids|);
    FittingEnd(units, from, cnt, greedy, ids, |ids|);
    if FirstFit(units, from, cnt, taken) {
      SameUnits(units, from, cnt, taken, greedy, ids, |ids|);
      WholeIncluded(units, from, cnt, taken, greedy, ids);
      WholeIncluded(units, from, cnt, greedy, taken, ids);
    }
  }

  // What can be given

  /** The whole packages taken. */
  ghost function ByPackage(t: Topology, offline: CPUSet, from: CPUSet, cnt: int): CPUSet {
    GreedyAll(PackageUnits(t, offline), from, cnt)
  }

  /** The whole cores taken after that. */
  ghost function ByCore(t: Topology, offline: CPUSet, from: CPUSet, cnt: int): CPUSet
    requires NoDeadCore(t, offline)
  {
    var byPackage := ByPackage(t, offline, from, cnt);
    GreedyAll(CoreUnits(t, offline), from - byPackage, cnt - |byPackage|)
  }

  /** The CPUs that the first two phases take, whatever the order of threads. */
  ghost function WholeParts(t: Topology, offline: CPUSet, from: CPUSet, cnt: int): CPUSet
    requires NoDeadCore(t, offline)
  {
    ByPackage(t, offline, from, cnt) + ByCore(t, offline, from, cnt)
  }

  /** The CPUs a request can get: all if it is for all; none if too few are usable; exactly the whole packages and cores
      if those fill it; and else any usable one. */
  ghost function Possible(t: Topology, offline: CPUSet, from: CPUSet, cnt: int): CPUSet
    requires NoDeadCore(t, offline)
  {
    var usable, whole := Usable(t, offline, from), WholeParts(t, offline, from, cnt);
    if |from| == cnt then from
    else if !(0 <= cnt <= |usable|) then {}
    else if |whole| == cnt then whole
    else usable
  }

  lemma TwoPhasesIff(t: Topology, offline: CPUSet, from: CPUSet, cnt: int, byPackage: CPUSet, byCore: CPUSet)
    requires ValidTopology(t) && NoDeadCore(t, offline)
    ensures TwoPhases(t, offline, from, cnt, byPackage, byCore) <==>
            byPackage == ByPackage(t, offline, from, cnt) && byCore == ByCore(t, offline, from, cnt)
  {
    hide *;
    PackagesSeparate(t, offline);
    CoresSeparate(t, offline);
    PhasesByUnits(t, offline, from, cnt);
    var packages, cores := PackageUnits(t, offline), CoreUnits(t, offline);
    FirstFitIff(packages, from, cnt, byPackage);
    FirstFitIff(cores, from - byPackage, cnt - |byPackage|, byCore);
    if TwoPhases(t, offline, from, cnt, byPackage, byCore) {
      TwoPhasesFit(t, offline, from, cnt, byPackage, byCore);
    } else if byPackage == ByPackage(t, offline, from, cnt) && byCore == ByCore(t, offline, from, cnt) {
      TwoPhasesAre(t, offline, from, cnt, byPackage, byCore);
    }
  }

  lemma PhasesByUnits(t: Topology, offline: CPUSet, from: CPUSet, cnt: int)
    requires NoDeadCore(t, offline)
    ensures ByPackage(t, offline, from, cnt) == GreedyAll(PackageUnits(t, offline), from, cnt)
    ensures
      var byPackage := ByPackage(t, offline, from, cnt);
      ByCore(t, offline, from, cnt) == GreedyAll(CoreUnits(t, offline), from - byPackage, cnt - |byPackage|)
  {
    hide GreedyAll, PackageUnits, CoreUnits;
  }

  /** The whole parts are usable CPUs, and no more than wanted. */
  lemma WholePartsFit(t: Topology, offline: CPUSet, from: CPUSet, cnt: int)
    requires ValidTopology(t) && NoDeadCore(t, offline) && 0 <= cnt
    ensures WholeParts(t, offline, from, cnt) <= Usable(t, offline, from)
    ensures |WholeParts(t, offline, from, cnt)| <= cnt
  {
    var byPackage, byCore := ByPackage(t, offline, from, cnt), ByCore(t, offline, from, cnt);
    TwoPhasesIff(t, offline, from, cnt, byPackage, byCore);
    TwoPhasesUsable(t, offline, from, cnt, byPackage, byCore);
    hide ByPackage, ByCore, TwoPhases, Usable, ValidTopology, NoDeadCore;
    UnionSize(byPackage, byCore);
  }

  /** A part of a set, of any size between that of a smaller part and its own. */
  lemma {:induction false} PartOfSize(some: CPUSet, all: CPUSet, n: int) returns (part: CPUSet)
    requires some <= all && |some| <= n <= |all|
    ensures some <= part <= all && |part| == n
    decreases n
  {
    if n == |some| {
      part := some;
    } else {
      part := PartOfSize(some, all, n - 1);
      var x := OneMissing(part, all);
      OneMore(part, x);
      part := part + {x};
    }
  }

  lemma OneMissing(part: CPUSet, all: CPUSet) returns (x: int)
    requires part <= all && |part| < |all|
    ensures x in all && x !in part
  {
    if all <= part {
      SubsetSize(all, part);
    }
    x := NotSubset(all, part);
  }

  /** Any set of usable CPUs of the right size that has the whole parts is a possible outcome. */
  lemma FilledOutcome(t: Topology, offline: CPUSet, from: CPUSet, cnt: int, result: CPUSet)
    requires ValidTopology(t) && NoDeadCore(t, offline) && |from| != cnt && 0 <= cnt <= |Usable(t, offline, from)|
    requires WholeParts(t, offline, from, cnt) <= result <= Usable(t, offline, from) && |result| == cnt
    ensures Outcome(t, offline, from, cnt, result, from - result, true)
  {
    var byPackage, byCore := ByPackage(t, offline, from, cnt), ByCore(t, offline, from, cnt);
    TwoPhasesIff(t, offline, from, cnt, byPackage, byCore);
    TwoPhasesFit(t, offline, from, cnt, byPackage, byCore);
    UsableWithin(t, offline, from);
    hide ByPackage, ByCore, TwoPhases, Usable, ValidTopology, NoDeadCore, Allocated;
    IsFilled(t, offline, from, cnt, byPackage, byCore, result);
  }

  lemma UsableWithin(t: Topology, offline: CPUSet, from: CPUSet)
    ensures Usable(t, offline, from) <= from && |Usable(t, offline, from)| <= |from|
  {
    SubsetSize(Usable(t, offline, from), from);
  }

  /** Whatever is asked for, the allocator has an outcome. */
  lemma OutcomeExists(t: Topology, offline: CPUSet, from: CPUSet, cnt: int)
    returns (result: CPUSet, left: CPUSet, ok: bool)
    requires ValidTopology(t) && NoDeadCore(t, offline)
    ensures Outcome(t, offline, from, cnt, result, left, ok) && ok == (cnt <= |from|)
  {
    var usable := Usable(t, offline, from);
    if |from| < cnt {
      result, left, ok := {}, from, false;
    } else if |from| == cnt {
      result, left, ok := from, {}, true;
    } else if 0 <= cnt <= |usable| {
      WholePartsFit(t, offline, from, cnt);
      hide *;
      result := PartOfSize(WholeParts(t, offline, from, cnt), usable, cnt);
      left, ok := from - result, true;
      FilledOutcome(t, offline, from, cnt, result);
    } else {
      result, left, ok := {}, from - usable, true;
    }
  }

  /** An outcome gives possible CPUs, and all of them if there is no choice. */
  lemma OutcomePossible(t: Topology, offline: CPUSet, from: CPUSet, cnt: int, result: CPUSet, left: CPUSet, ok: bool)
    requires ValidTopology(t) && NoDeadCore(t, offline) && Outcome(t, offline, from, cnt, result, left, ok)
    ensures result <= Possible(t, offline, from, cnt)
    ensures |Possible(t, offline, from, cnt)| == cnt ==> result == Possible(t, offline, from, cnt)
  {
    if |from| != cnt && 0 <= cnt <= |Usable(t, offline, from)| {
      UsableWithin(t, offline, from);
      var byPackage, byCore :| ThreePhases(t, offline, from, cnt, byPackage, byCore, result);
      PhasesAre(t, offline, from, cnt, byPackage, byCore, result);
      assert result <= Usable(t, offline, from);
      hide ValidTopology, NoDeadCore, FirstFit, Usable, ByPackage, ByCore, Outcome, ThreePhases;
      TwoPhasesAre(t, offline, from, cnt, byPackage, byCore);
      TwoPhasesIff(t, offline, from, cnt, byPackage, byCore);
      OfSameSize(WholeParts(t, offline, from, cnt), result);
      OfSameSize(result, Usable(t, offline, from));
    } else if |Possible(t, offline, from, cnt)| == cnt {
      UsableWithin(t, offline, from);
    }
  }

  lemma OfSameSize(a: CPUSet, b: CPUSet)
    requires a <= b
    ensures |a| == |b| ==> a == b
  {
    SubsetSize(a, b);
  }

  /** Exactly the possible CPUs occur in outcomes. */
  lemma PossibleMeans(t: Topology, offline: CPUSet, from: CPUSet, cnt: int, c: int)
    requires ValidTopology(t) && NoDeadCore(t, offline)
    ensures c in Possible(t, offline, from, cnt) <==>
            exists result, left, ok :: Outcome(t, offline, from, cnt, result, left, ok) && c in result
  {
    hide Outcome, ValidTopology, NoDeadCore, Possible;
    if c in Possible(t, offline, from, cnt) {
      var result, left := OutcomeWith(t, offline, from, cnt, c);
      assert Outcome(t, offline, from, cnt, result, left, true) && c in result;
    }
    forall result, left, ok | Outcome(t, offline, from, cnt, result, left, ok) && c in result
      ensures c in Possible(t, offline, from, cnt)
    {
      OutcomePossible(t, offline, from, cnt, result, left, ok);
    }
  }

  lemma OutcomeWith(t: Topology, offline: CPUSet, from: CPUSet, cnt: int, c: int)
    returns (result: CPUSet, left: CPUSet)
    requires ValidTopology(t) && NoDeadCore(t, offline) && c in Possible(t, offline, from, cnt)
    ensures Outcome(t, offline, from, cnt, result, left, true) && c in result
  {
    if |from| == cnt {
      result, left := from, {};
    } else {
      var usable, whole := Usable(t, offline, from), WholeParts(t, offline, from, cnt);
      WholePartsFit(t, offline, from, cnt);
      hide ValidTopology, NoDeadCore, Usable, WholeParts, Outcome;
      if |whole| == cnt {
        result := whole;
      } else {
        PlusOne(whole, c);
        result := PartOfSize(whole + {c}, usable, cnt);
      }
      left := from - result;
      FilledOutcome(t, offline, from, cnt, result);
    }
  }

  /** If whole packages and cores fill a request, there is no choice. */
  lemma FilledByParts(t: Topology, offline: CPUSet, from: CPUSet, cnt: int, byPackage: CPUSet, byCore: CPUSet)
    requires ValidTopology(t) && NoDeadCore(t, offline) && TwoPhases(t, offline, from, cnt, byPackage, byCore)
    requires |from| != cnt && 0 <= cnt <= |Usable(t, offline, from)| && |byPackage + byCore| == cnt
    ensures Possible(t, offline, from, cnt) == byPackage + byCore
  {
    hide TwoPhases, ValidTopology, NoDeadCore, ByPackage, ByCore, Usable;
    TwoPhasesIff(t, offline, from, cnt, byPackage, byCore);
  }

  lemma PlusOne(s: CPUSet, x: int)
    ensures |s + {x}| <= |s| + 1
  {
    if x in s {
      assert s + {x} == s;
    }
  }

  // Several requests in turn

  /** Requests for the given numbers of CPUs are served one after the other, in some order; then request a can get c. */
  ghost predicate CanGet(t: Topology, offline: CPUSet, from: CPUSet, demands: map<string, int>, a: string, c: int)
    requires NoDeadCore(t, offline)
    decreases demands.Keys
  {
    exists b, result, left ::
      && b in demands && Outcome(t, offline, from, demands[b], result, left, true)
      && if b == a then c in result else CanGet(t, offline, left, demands - {b}, a, c)
  }

  /** The CPUs that request a can get. */
  ghost function Attainable(t: Topology, offline: CPUSet, from: CPUSet, demands: map<string, int>, a: string): CPUSet
    requires NoDeadCore(t, offline)
  {
    set c | c in from && CanGet(t, offline, from, demands, a, c)
  }

  lemma {:induction false} CanGetWithin(t: Topology, offline: CPUSet, from: CPUSet, demands: map<string, int>,
                                        a: string, c: int)
    requires NoDeadCore(t, offline) && CanGet(t, offline, from, demands, a, c)
    ensures c in from
    decreases demands.Keys
  {
    var b, result, left :| && b in demands && Outcome(t, offline, from, demands[b], result, left, true)
      && if b == a then c in result else CanGet(t, offline, left, demands - {b}, a, c);
    ResultsApart(t, offline, from, demands[b], result, left, true);
    if b != a {
      CanGetWithin(t, offline, left, demands - {b}, a, c);
    }
  }

  /** A single request can get exactly the possible CPUs. */
  lemma AloneGets(t: Topology, offline: CPUSet, from: CPUSet, demands: map<string, int>, a: string)
    requires ValidTopology(t) && NoDeadCore(t, offline) && demands.Keys == {a}
    ensures Attainable(t, offline, from, demands, a) == Possible(t, offline, from, demands[a])
  {
    hide Outcome, ValidTopology, NoDeadCore, Possible;
    var n := demands[a];
    forall c | c in from && CanGet(t, offline, from, demands, a, c) ensures c in Possible(t, offline, from, n) {
      var result, left :| Outcome(t, offline, from, n, result, left, true) && c in result;
      OutcomePossible(t, offline, from, n, result, left, true);
    }
    forall c | c in Possible(t, offline, from, n) ensures c in Attainable(t, offline, from, demands, a) {
      var result, left := OutcomeWith(t, offline, from, n, c);
      ResultsApart(t, offline, from, n, result, left, true);
      assert a in demands && Outcome(t, offline, from, demands[a], result, left, true);
      assert CanGet(t, offline, from, demands, a, c);
    }
  }

  /** The requests can be served in some order so that none gets a CPU that it is to avoid. */
  ghost predicate CanAvoid(t: Topology, offline: CPUSet, from: CPUSet, demands: map<string, int>,
                           avoid: map<string, CPUSet>)
    requires NoDeadCore(t, offline)
    decreases demands.Keys
  {
    demands == map[] || exists b, result, left ::
      && b in demands && Outcome(t, offline, from, demands[b], result, left, true)
      && (b in avoid ==> result !! avoid[b])
      && CanAvoid(t, offline, left, demands - {b}, avoid)
  }

  /** A single request can avoid CPUs exactly if it is not bound to get one of them, and enough others are usable. */
  ghost predicate Avoidable(t: Topology, offline: CPUSet, from: CPUSet, cnt: int, avoid: CPUSet)
    requires NoDeadCore(t, offline)
  {
    var usable := Usable(t, offline, from);
    if |from| == cnt then from !! avoid
    else if 0 <= cnt <= |usable| then WholeParts(t, offline, from, cnt) !! avoid && cnt <= |usable - avoid|
    else true
  }

  lemma AvoidableMeans(t: Topology, offline: CPUSet, from: CPUSet, cnt: int, avoid: CPUSet)
    requires ValidTopology(t) && NoDeadCore(t, offline) && cnt <= |from|
    ensures Avoidable(t, offline, from, cnt, avoid) <==>
            exists result, left :: Outcome(t, offline, from, cnt, result, left, true) && result !! avoid
  {
    hide Outcome, ValidTopology, NoDeadCore, Avoidable;
    if Avoidable(t, offline, from, cnt, avoid) {
      var result, left := OutcomeAvoiding(t, offline, from, cnt, avoid);
      assert Outcome(t, offline, from, cnt, result, left, true) && result !! avoid;
    }
    forall result, left | Outcome(t, offline, from, cnt, result, left, true) && result !! avoid
      ensures Avoidable(t, offline, from, cnt, avoid)
    {
      OutcomeAvoids(t, offline, from, cnt, avoid, result, left);
    }
  }

  lemma OutcomeAvoiding(t: Topology, offline: CPUSet, from: CPUSet, cnt: int, avoid: CPUSet)
    returns (result: CPUSet, left: CPUSet)
    requires ValidTopology(t) && NoDeadCore(t, offline) && cnt <= |from| && Avoidable(t, offline, from, cnt, avoid)
    ensures Outcome(t, offline, from, cnt, result, left, true) && result !! avoid
  {
    var usable, whole := Usable(t, offline, from), WholeParts(t, offline, from, cnt);
    if |from| == cnt {
      result, left := from, {};
    } else if 0 <= cnt <= |usable| {
      WholePartsFit(t, offline, from, cnt);
      hide ValidTopology, NoDeadCore, Usable, WholeParts, Outcome;
      result := PartOfSize(whole, usable - avoid, cnt);
      left := from - result;
      FilledOutcome(t, offline, from, cnt, result);
    } else {
      result, left := {}, from - usable;
    }
  }

  lemma OutcomeAvoids(t: Topology, offline: CPUSet, from: CPUSet, cnt: int, avoid: CPUSet, result: CPUSet, left: CPUSet)
    requires ValidTopology(t) && NoDeadCore(t, offline)
    requires Outcome(t, offline, from, cnt, result, left, true) && result !! avoid
    ensures Avoidable(t, offline, from, cnt, avoid)
  {
    var usable := Usable(t, offline, from);
    if |from| != cnt && 0 <= cnt <= |usable| {
      UsableWithin(t, offline, from);
      var byPackage, byCore :| ThreePhases(t, offline, from, cnt, byPackage, byCore, result);
      PhasesAre(t, offline, from, cnt, byPackage, byCore, result);
      assert result <= usable;
      hide ValidTopology, NoDeadCore, FirstFit, Usable, ByPackage, ByCore, Outcome, ThreePhases;
      TwoPhasesAre(t, offline, from, cnt, byPackage, byCore);
      TwoPhasesIff(t, offline, from, cnt, byPackage, byCore);
      SubsetSize(result, usable - avoid);
    }
  }

  lemma AloneAvoids(t: Topology, offline: CPUSet, from: CPUSet, demands: map<string, int>, avoid: map<string, CPUSet>,
                    a: string)
    requires ValidTopology(t) && NoDeadCore(t, offline) && demands.Keys == {a} && a in avoid && demands[a] <= |from|
    ensures CanAvoid(t, offline, from, demands, avoid) <==> Avoidable(t, offline, from, demands[a], avoid[a])
  {
    hide Outcome, ValidTopology, NoDeadCore, Avoidable;
    AvoidableMeans(t, offline, from, demands[a], avoid[a]);
    assert demands - {a} == map[];
    if Avoidable(t, offline, from, demands[a], avoid[a]) {
      var result, left :| Outcome(t, offline, from, demands[a], result, left, true) && result !! avoid[a];
      assert CanAvoid(t, offline, left, map[], avoid);
    }
  }
}
