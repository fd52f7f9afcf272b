/** CPU sets as finite sets of CPU ids, with the sorted slice view of cpuset.CPUSet. */
module CpuSets {

  datatype Option<+T> = None | Some(value: T)

  type CPUSet = set<int>

  /** Some member of a non-empty set, for proofs. */
  ghost function Pick<T>(s: set<T>): (x: T)
    requires s != {}
    ensures x in s
  {
    var x :| x in s;
    x
  }

  /** One step of a map or set iteration: any member may come next. */
  method PickAny<T>(s: set<T>) returns (x: T)
    requires s != {}
    ensures x in s
  {
    x :| x in s;
  }

  /** Smallest id of a non-empty set. */
  function Min(s: CPUSet): (m: int)
    requires s != {}
    ensures m in s && forall x :: x in s ==> m <= x
  {
    assert exists m :: m in s && forall x :: x in s ==> m <= x by {
      var m := MinExists(s);
    }
    var m :| m in s && forall x :: x in s ==> m <= x;
    m
  }

  ghost predicate IsMin(m: int, s: CPUSet) {
    m in s && forall x :: x in s ==> m <= x
  }

  lemma {:induction false} MinExists(s: CPUSet) returns (m: int)
    requires s != {}
    ensures IsMin(m, s)
  {
    m := Pick(s);
    if s != {m} {
      var n := MinExists(s - {m});
      assert forall x :: x in s ==> x == m || x in s - {m};
      m := if m < n then m else n;
    }
  }

  predicate Ascending(s: seq<int>) {
    forall i, j :: 0 <= i < j < |s| ==> s[i] < s[j]
  }

  /** The members in increasing order, as ToSlice and the sorted id slices return them. */
  function SortedSlice(s: CPUSet): (r: seq<int>)
    ensures Ascending(r)
    ensures forall x :: x in r <==> x in s
    ensures |r| == |s|
  {
    if s == {} then [] else
    var m := Min(s);
    var rest := SortedSlice(s - {m});
    assert forall x :: x in rest ==> m < x;
    [m] + rest
  }

  function Prefix(r: seq<int>, n: nat): CPUSet
    requires n <= |r|
  {
    set c | c in r[..n]
  }

  lemma PrefixBelow(r: seq<int>, n: nat)
    requires n <= |r| && Ascending(r)
    ensures forall c :: c in Prefix(r, n) ==> c in r && forall j :: n <= j < |r| ==> c < r[j]
  {
    forall c | c in Prefix(r, n) ensures c in r && forall j :: n <= j < |r| ==> c < r[j] {
      var i :| 0 <= i < n && r[..n][i] == c;
      assert r[i] == c;
    }
  }

  lemma PrefixSnoc(r: seq<int>, n: nat)
    requires n < |r| && Ascending(r)
    ensures Prefix(r, n + 1) == Prefix(r, n) + {r[n]}
    ensures Prefix(r, n) !! {r[n]}
  {
    PrefixBelow(r, n);
    assert r[..n + 1] == r[..n] + [r[n]];
  }

  lemma {:induction false} PrefixSize(r: seq<int>, n: nat)
    requires n <= |r| && Ascending(r)
    ensures |Prefix(r, n)| == n
  {
    hide *;
    if n == 0 {
      PrefixNone(r);
    } else {
      PrefixSize(r, n - 1);
      PrefixSnoc(r, n - 1);
      OneMore(Prefix(r, n - 1), r[n - 1]);
    }
  }

  lemma PrefixNone(r: seq<int>)
    ensures Prefix(r, 0) == {}
  {
  }

  lemma OneMore(s: CPUSet, x: int)
    requires s !! {x}
    ensures |s + {x}| == |s| + 1
  {
  }

  /** The n smallest members. */
  function Smallest(s: CPUSet, n: nat): CPUSet
    requires n <= |s|
  {
    Prefix(SortedSlice(s), n)
  }

  lemma SmallestSize(s: CPUSet, n: nat)
    requires n <= |s|
    ensures |Smallest(s, n)| == n && Smallest(s, n) <= s
    ensures forall c, d :: c in Smallest(s, n) && d in s && d < c ==> d in Smallest(s, n)
  {
    var r := SortedSlice(s);
    PrefixSize(r, n);
    PrefixBelow(r, n);
    forall c | c in Smallest(s, n) ensures c in s { assert c in r; }
    forall c, d | c in Smallest(s, n) && d in s && d < c ensures d in Smallest(s, n) {
      assert d in r;
      var j :| 0 <= j < |r| && r[j] == d;
      assert j < n;
      assert r[..n][j] == d;
    }
  }

  lemma {:induction false} SubsetSize(a: CPUSet, b: CPUSet)
    requires a <= b
    ensures |a| <= |b|
    ensures |a| == |b| ==> a == b
  {
    if a != {} {
      var x := Pick(a);
      SubsetSize(a - {x}, b - {x});
    }
  }

  lemma NotSubset(a: CPUSet, b: CPUSet) returns (x: int)
    requires !(a <= b)
    ensures x in a && x !in b
  {
    assert a == a * b + (a - b);
    x := Pick(a - b);
  }

  lemma DisjointIff(a: CPUSet, b: CPUSet)
    ensures a !! b <==> forall c :: c in a ==> c !in b
  {
    if forall c :: c in a ==> c !in b {
      assert a !! b;
    }
    if a !! b {
      forall c | c in a ensures c !in b { }
    }
  }

  lemma UnionSize(a: CPUSet, b: CPUSet)
    requires a !! b
    ensures |a + b| == |a| + |b|
  {
  }

  lemma DifferenceSize(a: CPUSet, b: CPUSet)
    requires b <= a
    ensures |a - b| == |a| - |b|
  {
    assert (a - b) + b == a;
    UnionSize(a - b, b);
  }

  lemma WithoutTwo(s: CPUSet, a: CPUSet, b: CPUSet)
    requires a !! b && a + b <= s
    ensures s - a - b == s - (a + b)
    ensures |s - a - b| == |s| - |a| - |b|
  {
    assert s - a - b == s - (a + b);
    UnionSize(a, b);
    DifferenceSize(s, a + b);
  }

  lemma StrictlySmaller(a: CPUSet, b: CPUSet, x: int)
    requires a <= b && x in b && x !in a
    ensures |a| < |b|
  {
    SubsetSize(a, b);
  }
}
