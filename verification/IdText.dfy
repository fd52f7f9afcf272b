/** Textual forms of ids: decimal numbers, sysfs paths ending in an id, and id lists. */
module IdText {
  import opened CpuSets

  /** Ids are Go ints: 64 bits wide, so Atoi rejects anything outside this range. */
  const MAX_INT := 0x7fff_ffff_ffff_ffff

  predicate IsDigit(c: char) {
    '0' <= c <= '9'
  }

  predicate AllDigits(s: string) {
    forall i :: 0 <= i < |s| ==> IsDigit(s[i])
  }

  function Digit(d: nat): (c: char)
    requires d < 10
    ensures IsDigit(c) && DigitValue(c) == d
  {
    ('0' as int + d) as char
  }

  function DigitValue(c: char): (d: nat)
    requires IsDigit(c)
    ensures d < 10
  {
    c as int - '0' as int
  }

  function Pow10(n: nat): (p: nat)
    ensures p >= 1
  {
    if n == 0 then 1 else 10 * Pow10(n - 1)
  }

  /** The number written by a string of decimal digits. */
  function DigitsValue(s: string): nat
    requires AllDigits(s)
  {
    if s == [] then 0 else 10 * DigitsValue(s[..|s| - 1]) + DigitValue(s[|s| - 1])
  }

  /** strconv.Itoa */
  function Itoa(n: int): (s: string)
    ensures 0 <= n ==> s != [] && AllDigits(s)
    ensures n < 0 ==> s != [] && s[0] == '-'
    decreases n < 0, n
  {
    if n < 0 then "-" + Itoa(-n)
    else if n < 10 then [Digit(n)]
    else Itoa(n / 10) + [Digit(n % 10)]
  }

  /** strconv.Atoi: an optional sign, then at least one digit, within the range of int. */
  function Atoi(s: string): Option<int> {
    var neg := s != [] && s[0] == '-';
    var digits := if s != [] && (s[0] == '-' || s[0] == '+') then s[1..] else s;
    if digits == [] || !AllDigits(digits) then None else
    var d: int := DigitsValue(digits);
    var v := if neg then -d else d;
    if -MAX_INT - 1 <= v <= MAX_INT then Some(v) else None
  }

  /** strings.Split by a one-character separator. */
  function Split(s: string, sep: char): (parts: seq<string>)
    ensures parts != []
  {
    if s == [] then [[]] else
    var rest := Split(s[1..], sep);
    if s[0] == sep then [[]] + rest else [[s[0]] + rest[0]] + rest[1..]
  }

  function Join(parts: seq<string>, sep: char): string
    requires parts != []
  {
    if |parts| == 1 then parts[0] else parts[0] + [sep] + Join(parts[1..], sep)
  }

  function Interval(lo: int, hi: int): (r: CPUSet)
    ensures forall x :: x in r <==> lo <= x <= hi
    decreases hi - lo + 1
  {
    if lo > hi then {} else {lo} + Interval(lo + 1, hi)
  }

  /** The ids of one list entry: a single id, or an inclusive range of which only the first two bounds are read. */
  function EntryIds(entry: string): Option<CPUSet> {
    var rng := Split(entry, '-');
    if |rng| == 1 then
      match Atoi(entry)
      case None => None
      case Some(id) => Some({id})
    else
      match (Atoi(rng[0]), Atoi(rng[1]))
      case (Some(beg), Some(end)) => Some(Interval(beg, end))
      case _ => None
  }

  /** What a list stands for: nothing when an entry is malformed, else the ids of all its entries. */
  ghost predicate ListMeans(entries: seq<string>, r: Option<CPUSet>) {
    && (r.Some? <==> forall i :: 0 <= i < |entries| ==> EntryIds(entries[i]).Some?)
    && (r.Some? ==> forall x :: x in r.value <==>
          exists i :: 0 <= i < |entries| && EntryIds(entries[i]).Some? && x in EntryIds(entries[i]).value)
  }

  /** parseValueList for an IdSet. */
  method ParseValueList(str: string, sep: char) returns (r: Option<CPUSet>)
    ensures ListMeans(Split(str, sep), r)
  {
    hide ListMeans, EntryIds, Split, Atoi;
    var entries := Split(str, sep);
    var value: CPUSet := {};
    EmptyListMeans();
    for k := 0 to |entries|
      invariant ListMeans(entries[..k], Some(value))
    {
      var s := entries[k];
      assert entries[..k + 1] == entries[..k] + [s];
      var before := value;
      EntryIs(s);
      var rng := Split(s, '-');
      if |rng| == 1 {
        var id := Atoi(s);
        if id.None? {
          MalformedEntry(entries, k);
          return None;
        }
        value := value + {id.value};
      } else {
        var beg := Atoi(rng[0]);
        if beg.None? {
          MalformedEntry(entries, k);
          return None;
        }
        var end := Atoi(rng[1]);
        if end.None? {
          MalformedEntry(entries, k);
          return None;
        }
        var id := beg.value;
        while id <= end.value
          invariant forall x :: x in value <==> x in before || (beg.value <= x < id && x <= end.value)
        {
          value := value + {id};
          id := id + 1;
        }
      }
      ListMeansStep(entries[..k], s, before, value);
    }
    assert entries[..|entries|] == entries;
    return Some(value);
  }

  lemma EmptyListMeans()
    ensures ListMeans([], Some({}))
  {
  }

  lemma EntryIs(entry: string)
    ensures
      var rng := Split(entry, '-');
      EntryIds(entry) ==
      if |rng| == 1 then (if Atoi(entry).Some? then Some({Atoi(entry).value}) else None)
      else if Atoi(rng[0]).Some? && Atoi(rng[1]).Some? then Some(Interval(Atoi(rng[0]).value, Atoi(rng[1]).value))
      else None
  {
    hide Split, Atoi, Interval;
  }

  lemma MalformedEntry(entries: seq<string>, k: nat)
    requires k < |entries| && EntryIds(entries[k]).None?
    ensures ListMeans(entries, None)
  {
    hide EntryIds;
  }

  lemma ListMeansStep(entries: seq<string>, s: string, before: CPUSet, after: CPUSet)
    requires ListMeans(entries, Some(before))
    requires EntryIds(s).Some? && after == before + EntryIds(s).value
    ensures ListMeans(entries + [s], Some(after))
  {
    hide EntryIds;
    var all := entries + [s];
    forall x | x in after
      ensures exists i :: 0 <= i < |all| && EntryIds(all[i]).Some? && x in EntryIds(all[i]).value
    {
      if x in before {
        var i :| 0 <= i < |entries| && EntryIds(entries[i]).Some? && x in EntryIds(entries[i]).value;
        assert all[i] == entries[i];
      } else {
        assert all[|entries|] == s;
      }
    }
  }

  function ItoaAll(ids: seq<int>): (r: seq<string>)
    ensures |r| == |ids| && forall i :: 0 <= i < |ids| ==> r[i] == Itoa(ids[i])
  {
    if ids == [] then [] else [Itoa(ids[0])] + ItoaAll(ids[1..])
  }

  /** The printed form of an id set, as StringWithSeparator returns it. */
  function Printed(s: CPUSet, sep: char): string {
    if s == {} then "" else Join(ItoaAll(SortedSlice(s)), sep)
  }

  /** IdSet.StringWithSeparator */
  method StringWithSeparator(s: CPUSet, sep: char) returns (str: string)
    ensures str == Printed(s, sep)
  {
    if s == {} { return ""; }
    var ids := SortedSlice(s);
    str := "";
    var t := "";
    for k := 0 to |ids|
      invariant k == 0 ==> str == "" && t == ""
      invariant k > 0 ==> t == [sep] && str == Join(ItoaAll(ids[..k]), sep)
    {
      PrintStep(ids, k, sep);
      str := str + t + Itoa(ids[k]);
      t := [sep];
    }
    assert ids[..|ids|] == ids;
  }

  lemma {:induction false} JoinSnoc(parts: seq<string>, last: string, sep: char)
    requires parts != []
    ensures Join(parts + [last], sep) == Join(parts, sep) + [sep] + last
  {
    if |parts| > 1 {
      JoinSnoc(parts[1..], last, sep);
      assert (parts + [last])[1..] == parts[1..] + [last];
    }
  }

  lemma PrintStep(ids: seq<int>, k: nat, sep: char)
    requires k < |ids|
    ensures ItoaAll(ids[..k + 1]) != []
    ensures Join(ItoaAll(ids[..k + 1]), sep) ==
            if k == 0 then Itoa(ids[0]) else Join(ItoaAll(ids[..k]), sep) + [sep] + Itoa(ids[k])
  {
    ItoaAllSnoc(ids, k);
    hide *;
    if k > 0 {
      JoinSnoc(ItoaAll(ids[..k]), Itoa(ids[k]), sep);
    } else {
      JoinOne(Itoa(ids[0]), sep);
    }
  }

  lemma ItoaAllSnoc(ids: seq<int>, k: nat)
    requires k < |ids|
    ensures ItoaAll(ids[..k + 1]) == ItoaAll(ids[..k]) + [Itoa(ids[k])]
    ensures k == 0 ==> ItoaAll(ids[..k + 1]) == [Itoa(ids[0])]
    ensures k > 0 ==> ItoaAll(ids[..k]) != []
  {
    hide Itoa;
    assert |ItoaAll(ids[..k + 1])| == k + 1 && |ItoaAll(ids[..k])| == k;
  }

  lemma JoinOne(part: string, sep: char)
    ensures Join([part], sep) == part
  {
  }

  // Round trip of numbers

  lemma {:induction false} ItoaValue(n: nat)
    ensures DigitsValue(Itoa(n)) == n
  {
    if n >= 10 {
      ItoaValue(n / 10);
      var s := Itoa(n);
      assert s[..|s| - 1] == Itoa(n / 10);
    } else {
      assert Itoa(n)[..0] == [];
    }
  }

  lemma AtoiItoa(n: int)
    requires 0 <= n <= MAX_INT
    ensures Atoi(Itoa(n)) == Some(n)
  {
    ItoaValue(n);
    assert IsDigit(Itoa(n)[0]);
  }

  // Round trip of lists

  lemma {:induction false} SplitPlain(a: string, sep: char)
    requires forall i :: 0 <= i < |a| ==> a[i] != sep
    ensures Split(a, sep) == [a]
  {
    if a != [] {
      SplitPlain(a[1..], sep);
      assert [a[0]] + a[1..] == a;
    }
  }

  lemma {:induction false} SplitPrefix(a: string, sep: char, rest: string)
    requires forall i :: 0 <= i < |a| ==> a[i] != sep
    ensures Split(a + [sep] + rest, sep) == [a] + Split(rest, sep)
  {
    var s := a + [sep] + rest;
    if a == [] {
      assert s[1..] == rest;
    } else {
      SplitPrefix(a[1..], sep, rest);
      assert s[1..] == a[1..] + [sep] + rest;
      assert [a[0]] + a[1..] == a;
    }
  }

  lemma {:induction false} SplitJoin(parts: seq<string>, sep: char)
    requires parts != []
    requires forall k :: 0 <= k < |parts| ==> sep !in parts[k]
    ensures Split(Join(parts, sep), sep) == parts
  {
    if |parts| == 1 {
      SplitPlain(parts[0], sep);
    } else {
      SplitJoin(parts[1..], sep);
      SplitPrefix(parts[0], sep, Join(parts[1..], sep));
    }
  }

  lemma {:induction false} ItoaAvoids(n: int, sep: char)
    requires !IsDigit(sep) && sep != '-'
    ensures sep !in Itoa(n)
    decreases n < 0, n
  {
    if n < 0 { ItoaAvoids(-n, sep); } else if n >= 10 { ItoaAvoids(n / 10, sep); }
  }

  lemma EntryOfItoa(n: int)
    requires -MAX_INT <= n <= MAX_INT
    ensures EntryIds(Itoa(n)) == if 0 <= n then Some({n}) else None
  {
    if 0 <= n {
      AtoiItoa(n);
      SplitPlain(Itoa(n), '-');
    } else {
      assert Split(Itoa(n), '-')[0] == "";
    }
  }

  lemma PrintedEntries(s: CPUSet, sep: char)
    requires sep == ',' || sep == ' '
    requires s != {}
    ensures Split(Printed(s, sep), sep) == ItoaAll(SortedSlice(s))
  {
    var ids := SortedSlice(s);
    forall k | 0 <= k < |ids| ensures sep !in ItoaAll(ids)[k] { ItoaAvoids(ids[k], sep); }
    SplitJoin(ItoaAll(ids), sep);
  }

  lemma ItoaListMeans(ids: seq<int>, r: Option<CPUSet>)
    requires forall n :: n in ids ==> -MAX_INT <= n <= MAX_INT
    requires ListMeans(ItoaAll(ids), r)
    ensures r == if (forall n :: n in ids ==> 0 <= n) then Some(set n | n in ids) else None
  {
    var entries := ItoaAll(ids);
    forall k | 0 <= k < |ids|
      ensures EntryIds(entries[k]) == if 0 <= ids[k] then Some({ids[k]}) else None
    {
      assert ids[k] in ids;
      EntryOfItoa(ids[k]);
    }
    if r.Some? {
      forall n | n in ids ensures 0 <= n {
        var k :| 0 <= k < |ids| && ids[k] == n;
        assert EntryIds(entries[k]).Some?;
      }
      forall n | n in ids ensures n in r.value {
        var k :| 0 <= k < |ids| && ids[k] == n;
        assert EntryIds(entries[k]) == Some({n});
      }
      forall n | n in r.value ensures n in ids {
        var k :| 0 <= k < |entries| && EntryIds(entries[k]).Some? && n in EntryIds(entries[k]).value;
        assert ids[k] == n;
      }
      var members := set n | n in ids;
      assert r.value == members;
    } else {
      var k :| 0 <= k < |entries| && EntryIds(entries[k]).None?;
      assert ids[k] in ids;
    }
  }

  /** Printing and parsing a set of ints is the identity exactly on the non-empty sets of non-negative ids. */
  lemma ListRoundTrip(s: CPUSet, sep: char, r: Option<CPUSet>)
    requires sep == ',' || sep == ' '
    requires forall n :: n in s ==> -9223372036854775807 <= n <= 9223372036854775807
    requires ListMeans(Split(Printed(s, sep), sep), r)
    ensures r == if s != {} && (forall n :: n in s ==> 0 <= n) then Some(s) else None
  {
    assert MAX_INT == 9223372036854775807;
    hide *;
    SliceMembers(s);
    if s == {} {
      PrintedNothing(sep);
      NothingPrinted(sep, r);
    } else {
      PrintedEntries(s, sep);
      ItoaListMeans(SortedSlice(s), r);
    }
  }

  lemma SliceMembers(s: CPUSet)
    ensures forall n :: n in SortedSlice(s) <==> n in s
    ensures (set n | n in SortedSlice(s)) == s
  {
  }

  lemma PrintedNothing(sep: char)
    ensures Printed({}, sep) == ""
  {
  }

  lemma NothingPrinted(sep: char, r: Option<CPUSet>)
    requires ListMeans(Split("", sep), r)
    ensures r == None
  {
    assert EntryIds(Split("", sep)[0]) == None;
  }

  // Enumerated paths

  /** The digits after position i are the trailing number of the name; position 0 is never looked at. */
  ghost predicate EnumeratedAt(name: string, i: int) {
    && 0 < i < |name| - 1
    && !IsDigit(name[i])
    && forall j :: i < j < |name| ==> IsDigit(name[j])
  }

  lemma DigitsSnoc(s: string, c: char)
    requires AllDigits(s) && IsDigit(c)
    ensures DigitsValue(s + [c]) == 10 * DigitsValue(s) + DigitValue(c)
  {
    assert (s + [c])[..|s|] == s;
  }

  lemma Shifted(v: nat, p: nat, a: nat, d: nat)
    ensures 10 * (v * p + a) + d == v * (10 * p) + (10 * a + d)
  {
  }

  lemma {:induction false} PrependDigit(c: char, s: string)
    requires IsDigit(c) && AllDigits(s)
    ensures DigitsValue([c] + s) == DigitValue(c) * Pow10(|s|) + DigitsValue(s)
  {
    hide *;
    if s == [] {
      OneDigit(c);
    } else {
      var s', d := s[..|s| - 1], s[|s| - 1];
      DigitsSplit(c, s);
      PrependDigit(c, s');
      DigitsSnoc(s', d);
      DigitsSnoc([c] + s', d);
      Shifted(DigitValue(c), Pow10(|s'|), DigitsValue(s'), DigitValue(d));
    }
  }

  lemma OneDigit(c: char)
    requires IsDigit(c)
    ensures AllDigits([c]) && AllDigits([]) && [c] + [] == [c]
    ensures DigitsValue([c]) == DigitValue(c) * Pow10(|""|) + DigitsValue("")
  {
    DigitsSnoc([], c);
    assert [] + [c] == [c];
  }

  lemma DigitsSplit(c: char, s: string)
    requires IsDigit(c) && AllDigits(s) && s != []
    ensures
      var s', d := s[..|s| - 1], s[|s| - 1];
      && AllDigits(s') && IsDigit(d) && AllDigits([c] + s') && AllDigits([c] + s)
      && s == s' + [d] && [c] + s == ([c] + s') + [d] && Pow10(|s|) == 10 * Pow10(|s'|)
  {
  }

  /** getEnumeratedId */
  method GetEnumeratedId(name: string) returns (r: int)
    ensures r == -1 || exists i :: EnumeratedAt(name, i)
    ensures forall i :: EnumeratedAt(name, i) ==> r == DigitsValue(name[i + 1..])
  {
    var id, base := 0, 1;
    var idx := |name| - 1;
    while idx > 0
      invariant -1 <= idx < |name|
      invariant forall j :: idx < j < |name| ==> IsDigit(name[j])
      invariant id == DigitsValue(name[idx + 1..])
      invariant base == Pow10(|name| - 1 - idx)
    {
      var d := name[idx];
      if '0' <= d && d <= '9' {
        assert name[idx..] == [d] + name[idx + 1..];
        PrependDigit(d, name[idx + 1..]);
        id := id + base * DigitValue(d);
        base := base * 10;
      } else {
        if base > 1 {
          assert EnumeratedAt(name, idx);
          return id;
        }
        return -1;
      }
      idx := idx - 1;
    }
    return -1;
  }

  /** The id read back from a path built with the decimal form of a non-negative id is that id. */
  lemma PathRoundTrip(prefix: string, n: nat)
    requires |prefix| >= 2 && !IsDigit(prefix[|prefix| - 1])
    ensures EnumeratedAt(prefix + Itoa(n), |prefix| - 1)
    ensures DigitsValue((prefix + Itoa(n))[|prefix| - 1 + 1..]) == n
  {
    assert (prefix + Itoa(n))[|prefix| - 1 + 1..] == Itoa(n);
    ItoaValue(n);
  }

  // Texts as they are written

  /** A range stands for all ids from its first to its last bound. */
  lemma RangeMeans(lo: int, hi: int, r: Option<CPUSet>)
    requires 0 <= lo <= 9223372036854775807 && 0 <= hi <= 9223372036854775807
    requires ListMeans(Split(Itoa(lo) + "-" + Itoa(hi), ','), r)
    ensures r.Some? && forall x :: x in r.value <==> lo <= x <= hi
  {
    var entry := Itoa(lo) + "-" + Itoa(hi);
    ItoaAvoids(lo, ',');
    ItoaAvoids(hi, ',');
    SplitPlain(entry, ',');
    SplitPlain(Itoa(hi), '-');
    SplitPrefix(Itoa(lo), '-', Itoa(hi));
    assert Itoa(lo) + ['-'] + Itoa(hi) == entry;
    AtoiItoa(lo);
    AtoiItoa(hi);
    assert EntryIds(entry) == Some(Interval(lo, hi));
    hide EntryIds, Split, Itoa;
    OneEntry(entry, r);
  }

  lemma OneEntry(entry: string, r: Option<CPUSet>)
    requires ListMeans([entry], r)
    ensures r.Some? <==> EntryIds(entry).Some?
    ensures r.Some? ==> forall x :: x in r.value <==> x in EntryIds(entry).value
  {
    hide EntryIds;
    var entries := [entry];
    assert entries[0] == entry;
  }

  lemma SmallNumbers()
    ensures Atoi("10") == Some(10) && Atoi("12") == Some(12) && Atoi("9") == Some(9) && Atoi("x") == None
    ensures Atoi("+5") == Some(5)
    ensures Itoa(10) == "10" && Itoa(0) == "0"
  {
    assert DigitsValue("1") == 1 && DigitsValue("10") == 10 && DigitsValue("12") == 12 && DigitsValue("9") == 9;
    assert !IsDigit("x"[0]);
    assert "+5"[1..] == "5" && DigitsValue("5") == 5;
  }

  lemma SmallParts()
    ensures Split("10-12", ',') == ["10-12"] && Split("10-12", '-') == ["10", "12"]
    ensures Split("10-12-9", ',') == ["10-12-9"] && Split("10-12-9", '-') == ["10", "12", "9"]
    ensures Split("x", ',') == ["x"] && Split("x", '-') == ["x"]
    ensures Split("+5", ',') == ["+5"] && Split("+5", '-') == ["+5"]
  {
    hide *;
    SplitPlain("10-12", ',');
    SplitPlain("10-12-9", ',');
    SplitPlain("x", ',');
    SplitPlain("x", '-');
    SplitPlain("+5", ',');
    SplitPlain("+5", '-');
    SplitPlain("12", '-');
    SplitPlain("9", '-');
    SplitPrefix("10", '-', "12");
    SplitPrefix("12", '-', "9");
    SplitPrefix("10", '-', "12-9");
    assert "10" + ['-'] + "12" == "10-12" && "10" + ['-'] + "12-9" == "10-12-9" && "12" + ['-'] + "9" == "12-9";
    assert ["10"] + ["12"] == ["10", "12"] && ["10"] + (["12"] + ["9"]) == ["10", "12", "9"];
  }

  lemma SmallSorted()
    ensures SortedSlice({3, 10}) == [3, 10]
  {
    var ids := SortedSlice({3, 10});
    assert |{3, 10}| == 2;
    assert 3 in ids && 10 in ids && forall x :: x in ids ==> x == 3 || x == 10;
    assert ids[0] == 3 && ids[1] == 10;
  }

  lemma SmallItoa()
    ensures Itoa(3) == "3" && Itoa(10) == "10"
  {
  }

  lemma SmallSet()
    ensures Printed({3, 10}, ' ') == "3 10"
  {
    SmallSorted();
    SmallItoa();
    assert {3, 10} != {} by {
      assert 3 in {3, 10};
    }
    hide SortedSlice, Itoa;
    var parts := ItoaAll([3, 10]);
    hide ItoaAll;
    assert parts[0] == "3" && parts[1] == "10";
    assert parts == ["3", "10"] && parts[1..] == ["10"];
    JoinOne("10", ' ');
    assert Join(parts, ' ') == "3" + [' '] + "10";
  }

  /** Some texts: ranges, the second with a third bound, which is ignored; a word; a signed number; and a printed set. */
  lemma ListExamples(a: Option<CPUSet>, b: Option<CPUSet>, c: Option<CPUSet>, d: Option<CPUSet>)
    requires ListMeans(Split("10-12", ','), a) && ListMeans(Split("10-12-9", ','), b)
    requires ListMeans(Split("x", ','), c) && ListMeans(Split("+5", ','), d)
    ensures a == Some({10, 11, 12}) && b == Some({10, 11, 12}) && c == None && d == Some({5})
    ensures Itoa(10) == "10" && Printed({3, 10}, ' ') == "3 10"
  {
    SmallSet();
    SmallNumbers();
    SmallParts();
    hide Split, Atoi, Itoa, ListMeans, Printed;
    OneEntry("10-12", a);
    OneEntry("10-12-9", b);
    OneEntry("x", c);
    OneEntry("+5", d);
    hide EntryIds;
    assert a.value == {10, 11, 12} && b.value == {10, 11, 12} && d.value == {5};
  }
}
