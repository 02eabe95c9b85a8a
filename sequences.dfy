/** The Python built-ins the hand evaluator leans on (set, max, min, sorted,
    list filtering, Counter), stated over Dafny sequences and multisets. */
module Sequences {

  /** `set(s)` */
  function SetOf<T>(s: seq<T>): set<T> {
    set x | x in s
  }

  /** No two positions of `s` hold equal elements. */
  predicate Distinct<T(==)>(s: seq<T>) {
    forall i, j :: 0 <= i < j < |s| ==> s[i] != s[j]
  }

  /** A sequence without repetitions has as many elements as its set. */
  lemma {:induction false} DistinctSetSize<T>(s: seq<T>)
    requires Distinct(s)
    ensures |SetOf(s)| == |s|
  {
    if s != [] {
      DistinctSetSize(s[1..]);
      assert SetOf(s) == {s[0]} + SetOf(s[1..]);
      assert s[0] !in SetOf(s[1..]);
    }
  }

  /** A sequence has at most as many different elements as positions, and
      exactly as many only when none repeats. */
  lemma {:induction false} SetSizeDistinct<T>(s: seq<T>)
    ensures |SetOf(s)| <= |s|
    ensures |SetOf(s)| == |s| ==> Distinct(s)
  {
    if s != [] {
      var t := s[1..];
      SetSizeDistinct(t);
      assert SetOf(s) == {s[0]} + SetOf(t);
      if s[0] !in t && |SetOf(s)| == |s| {
        assert s[0] !in SetOf(t);
        forall i, j | 0 <= i < j < |s| ensures s[i] != s[j] {
          if i > 0 {
            assert s[i] == t[i - 1] && s[j] == t[j - 1];
          } else {
            assert s[j] in t;
          }
        }
      }
    }
  }

  /** A concatenation repeats nothing exactly when neither part does and the
      parts share nothing. */
  lemma DistinctConcat<T>(a: seq<T>, b: seq<T>)
    ensures Distinct(a + b) <==> Distinct(a) && Distinct(b) && (forall x :: x in a ==> x !in b)
  {
    var ab := a + b;
    if Distinct(ab) {
      forall i, j | 0 <= i < j < |a| ensures a[i] != a[j] {
        assert ab[i] == a[i] && ab[j] == a[j];
      }
      forall i, j | 0 <= i < j < |b| ensures b[i] != b[j] {
        assert ab[|a| + i] == b[i] && ab[|a| + j] == b[j];
      }
      forall i, j | 0 <= i < |a| && 0 <= j < |b| ensures a[i] != b[j] {
        assert ab[i] == a[i] && ab[|a| + j] == b[j];
      }
    }
    if Distinct(a) && Distinct(b) && (forall x :: x in a ==> x !in b) {
      forall i, j | 0 <= i < j < |ab| ensures ab[i] != ab[j] {
        if j < |a| {
          assert ab[i] == a[i] && ab[j] == a[j];
        } else if i >= |a| {
          assert ab[i] == b[i - |a|] && ab[j] == b[j - |a|];
        } else {
          assert ab[i] == a[i] && ab[j] == b[j - |a|];
          assert a[i] in a;
        }
      }
    }
  }

  /** In a sequence without repetitions every element occurs once. */
  lemma {:induction false} DistinctOnce<T>(s: seq<T>, v: T)
    requires Distinct(s)
    ensures multiset(s)[v] <= 1
  {
    if s != [] {
      var t := s[1..];
      assert Distinct(t);
      DistinctOnce(t, v);
      assert s == [s[0]] + t;
      assert s[0] !in t;
    }
  }

  /** `max(s)` */
  function Max(s: seq<int>): (m: int)
    requires |s| > 0
    ensures m in s
    ensures forall x :: x in s ==> x <= m
  {
    if |s| == 1 then s[0]
    else
      var rest := Max(s[1..]);
      assert forall x :: x in s ==> x == s[0] || x in s[1..];
      if s[0] >= rest then s[0] else rest
  }

  /** `min(s)` */
  function Min(s: seq<int>): (m: int)
    requires |s| > 0
    ensures m in s
    ensures forall x :: x in s ==> m <= x
  {
    if |s| == 1 then s[0]
    else
      var rest := Min(s[1..]);
      assert forall x :: x in s ==> x == s[0] || x in s[1..];
      if s[0] <= rest then s[0] else rest
  }

  predicate IsDescending(s: seq<int>) {
    forall i, j :: 0 <= i < j < |s| ==> s[i] >= s[j]
  }

  /** A descending sequence stays descending behind a head no smaller than
      any of its elements. */
  lemma ConsDescending(h: int, t: seq<int>)
    requires IsDescending(t) && forall x :: x in multiset(t) ==> x <= h
    ensures IsDescending([h] + t)
  {
    var r := [h] + t;
    forall i, j | 0 <= i < j < |r| ensures r[i] >= r[j] {
      assert r[j] == t[j - 1] && t[j - 1] in multiset(t);
      if i > 0 {
        assert r[i] == t[i - 1];
      }
    }
  }

  /** The head of a descending sequence bounds the rest with any smaller
      value added. */
  lemma HeadBoundsInsert(x: int, s: seq<int>, t: seq<int>)
    requires IsDescending(s) && s != [] && x < s[0]
    requires multiset(t) == multiset(s[1..]) + multiset{x}
    ensures forall y :: y in multiset(t) ==> y <= s[0]
  {
    forall y | y in multiset(t) ensures y <= s[0] {
      if y != x {
        var k :| 0 <= k < |s[1..]| && s[1..][k] == y;
        assert s[k + 1] == y;
      }
    }
  }

  /** Inserts `x` into the descending sequence `s`. */
  function Insert(x: int, s: seq<int>): (r: seq<int>)
    requires IsDescending(s)
    ensures IsDescending(r)
    ensures multiset(r) == multiset(s) + multiset{x}
  {
    if s == [] || x >= s[0] then
      ConsDescending(x, s);
      [x] + s
    else
      var t := Insert(x, s[1..]);
      HeadBoundsInsert(x, s, t);
      ConsDescending(s[0], t);
      assert s == [s[0]] + s[1..];
      [s[0]] + t
  }

  /** `sorted(s, reverse=True)` */
  function SortDesc(s: seq<int>): (r: seq<int>)
    ensures IsDescending(r)
    ensures multiset(r) == multiset(s)
    ensures |r| == |s|
  {
    if s == [] then []
    else
      assert s == [s[0]] + s[1..];
      Insert(s[0], SortDesc(s[1..]))
  }

  /** The first element of a descending sequence is its largest. */
  lemma HeadIsMax(s: seq<int>)
    requires IsDescending(s) && |s| > 0
    ensures forall x :: x in multiset(s) ==> x <= s[0]
  {
    forall x | x in multiset(s) ensures x <= s[0] {
      assert x in s;
    }
  }

  /** The first element of a descending arrangement of `s` is `max(s)`. */
  lemma DescendingHeadIsMax(r: seq<int>, s: seq<int>)
    requires IsDescending(r) && multiset(r) == multiset(s) && |s| > 0
    ensures |r| > 0 && r[0] == Max(s)
  {
    assert |r| == |multiset(r)| == |s|;
    HeadIsMax(r);
    assert Max(s) in multiset(r);
    assert r[0] in multiset(s);
    assert r[0] in s;
  }

  lemma MultisetTail(s: seq<int>)
    requires |s| > 0
    ensures multiset(s[1..]) == multiset(s) - multiset{s[0]}
  {
    assert s == [s[0]] + s[1..];
  }

  /** A multiset has exactly one descending arrangement. */
  lemma {:induction false} DescendingUnique(a: seq<int>, b: seq<int>)
    requires IsDescending(a) && IsDescending(b)
    requires multiset(a) == multiset(b)
    ensures a == b
  {
    assert |b| == |multiset(b)| == |multiset(a)| == |a|;
    if a != [] {
      assert a[0] == b[0] by {
        assert a[0] in multiset(b) && b[0] in multiset(a);
        HeadIsMax(a);
        HeadIsMax(b);
      }
      MultisetTail(a);
      MultisetTail(b);
      DescendingUnique(a[1..], b[1..]);
      assert a == [a[0]] + a[1..] && b == [b[0]] + b[1..];
    }
  }

  /** `sorted([a, b], reverse=True)` */
  lemma SortPair(a: int, b: int)
    ensures SortDesc([a, b]) == if a >= b then [a, b] else [b, a]
  {
    var sorted := SortDesc([a, b]);
    if a >= b {
      assert IsDescending([a, b]);
      DescendingUnique(sorted, [a, b]);
    } else {
      assert IsDescending([b, a]) && multiset([b, a]) == multiset([a, b]);
      DescendingUnique(sorted, [b, a]);
    }
  }

  /** `[x for x in s if x != v]` */
  function Without(s: seq<int>, v: int): (r: seq<int>)
    ensures multiset(r) == multiset(s)[v := 0]
    ensures |r| == |s| - multiset(s)[v]
  {
    if s == [] then []
    else
      assert s == [s[0]] + s[1..];
      var rest := Without(s[1..], v);
      if s[0] == v then rest else [s[0]] + rest
  }

  /** The sum of the multiplicities in `m` of the values listed in `ws`. */
  function SumOver(m: multiset<int>, ws: seq<int>): nat {
    if ws == [] then 0 else m[ws[0]] + SumOver(m, ws[1..])
  }

  lemma SumOverPair(m: multiset<int>, a: int, b: int)
    ensures SumOver(m, [a, b]) == m[a] + m[b]
  {
    assert [a, b][1..] == [b];
    assert SumOver(m, [b]) == m[b] + SumOver(m, []);
  }

  lemma {:induction false} SumOverAdd(a: multiset<int>, b: multiset<int>, ws: seq<int>)
    ensures SumOver(a + b, ws) == SumOver(a, ws) + SumOver(b, ws)
  {
    if ws != [] {
      SumOverAdd(a, b, ws[1..]);
    }
  }

  lemma {:induction false} SumOverEmpty(ws: seq<int>)
    ensures SumOver(multiset{}, ws) == 0
  {
    if ws != [] {
      SumOverEmpty(ws[1..]);
    }
  }

  lemma {:induction false} SumOverSingleton(x: int, ws: seq<int>)
    requires Distinct(ws)
    ensures SumOver(multiset{x}, ws) == if x in ws then 1 else 0
  {
    if ws != [] {
      SumOverSingleton(x, ws[1..]);
      assert x in ws <==> x == ws[0] || x in ws[1..];
      assert x == ws[0] ==> x !in ws[1..];
    }
  }

  /** Distinct values together occur no more often than there are elements,
      and exactly as often when every element is one of them. */
  lemma {:induction false} CountsWithin(s: seq<int>, ws: seq<int>)
    requires Distinct(ws)
    ensures SumOver(multiset(s), ws) <= |s|
    ensures (forall x :: x in s ==> x in ws) ==> SumOver(multiset(s), ws) == |s|
  {
    if s == [] {
      SumOverEmpty(ws);
    } else {
      assert s == [s[0]] + s[1..];
      assert multiset(s) == multiset{s[0]} + multiset(s[1..]);
      SumOverAdd(multiset{s[0]}, multiset(s[1..]), ws);
      SumOverSingleton(s[0], ws);
      CountsWithin(s[1..], ws);
    }
  }
}
