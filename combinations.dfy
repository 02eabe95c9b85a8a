/** `itertools.combinations`, which both odds engines use: to list the
    five-card hands inside hole plus community cards (poker_odds.py:164,
    poker_odds.py:247) and to list every completion of the board
    (poker_odds.py:235). */
module Combinatorics {
  import opened Sequences

  /** The binomial coefficient, by Pascal's rule. */
  function Choose(n: nat, k: nat): nat {
    if k == 0 then 1
    else if n == 0 then 0
    else Choose(n - 1, k - 1) + Choose(n - 1, k)
  }

  /** `x` put in front of every sequence of `cs`. */
  function Prepend<T>(x: T, cs: seq<seq<T>>): (r: seq<seq<T>>)
    ensures |r| == |cs|
    ensures forall i :: 0 <= i < |cs| ==> r[i] == [x] + cs[i]
  {
    seq(|cs|, i requires 0 <= i < |cs| => [x] + cs[i])
  }

  /** `combinations(s, k)`: the `k`-element selections of `s`, each in the
      order of `s`, listed lexicographically by position — first those that
      take `s[0]`, then those that skip it. */
  function Combinations<T>(s: seq<T>, k: nat): seq<seq<T>>
    decreases |s|
  {
    if k == 0 then [[]]
    else if s == [] then []
    else Prepend(s[0], Combinations(s[1..], k - 1)) + Combinations(s[1..], k)
  }

  /** There are C(n, k) of them. */
  lemma {:induction false} CombinationsCount<T>(s: seq<T>, k: nat)
    ensures |Combinations(s, k)| == Choose(|s|, k)
    decreases |s|
  {
    if k > 0 && s != [] {
      CombinationsCount(s[1..], k - 1);
      CombinationsCount(s[1..], k);
    }
  }

  /** Each selection has `k` elements, all taken from `s`. */
  lemma {:induction false} CombinationMembers<T>(s: seq<T>, k: nat, c: seq<T>)
    requires c in Combinations(s, k)
    ensures |c| == k
    ensures forall x :: x in c ==> x in s
    decreases |s|
  {
    if k > 0 && s != [] {
      var tails := Combinations(s[1..], k - 1);
      var with := Prepend(s[0], tails);
      if c in with {
        var i :| 0 <= i < |with| && with[i] == c;
        CombinationMembers(s[1..], k - 1, tails[i]);
        assert c == [s[0]] + tails[i];
        forall x | x in c ensures x in s {
          assert x == s[0] || x in tails[i];
        }
      } else {
        CombinationMembers(s[1..], k, c);
      }
    }
  }

  lemma DistinctCons<T>(x: T, tail: seq<T>)
    requires x !in tail && Distinct(tail)
    ensures Distinct([x] + tail)
  {
    var c := [x] + tail;
    forall a, b | 0 <= a < b < |c| ensures c[a] != c[b] {
      assert c[b] == tail[b - 1];
      if a > 0 {
        assert c[a] == tail[a - 1];
      }
    }
  }

  /** A selection from a sequence without repetitions has none either. */
  lemma {:induction false} CombinationDistinct<T>(s: seq<T>, k: nat, c: seq<T>)
    requires Distinct(s)
    requires c in Combinations(s, k)
    ensures Distinct(c)
    decreases |s|, 1
  {
    if k > 0 && s != [] {
      var tails := Combinations(s[1..], k - 1);
      var with := Prepend(s[0], tails);
      if c in with {
        var i :| 0 <= i < |with| && with[i] == c;
        HeadedDistinct(s, k, tails[i]);
      } else {
        assert Distinct(s[1..]);
        CombinationDistinct(s[1..], k, c);
      }
    }
  }

  lemma {:induction false} HeadedDistinct<T>(s: seq<T>, k: nat, tail: seq<T>)
    requires Distinct(s) && s != [] && k > 0
    requires tail in Combinations(s[1..], k - 1)
    ensures Distinct([s[0]] + tail)
    decreases |s|, 0
  {
    var t := s[1..];
    assert Distinct(t);
    CombinationDistinct(t, k - 1, tail);
    CombinationMembers(t, k - 1, tail);
    assert s[0] !in t;
    DistinctCons(s[0], tail);
  }

  /** Every selection from a sequence without repetitions has `k` different
      elements of the sequence. */
  lemma SelectionsFacts<T>(s: seq<T>, k: nat)
    requires Distinct(s)
    ensures forall c :: c in Combinations(s, k) ==> |c| == k && Distinct(c) && forall x :: x in c ==> x in s
  {
    forall c | c in Combinations(s, k) ensures |c| == k && Distinct(c) && forall x :: x in c ==> x in s {
      CombinationMembers(s, k, c);
      CombinationDistinct(s, k, c);
    }
  }

  /** Strictly increasing positions below `n`. */
  predicate Increasing(idx: seq<nat>, n: nat) {
    (forall i :: 0 <= i < |idx| ==> idx[i] < n)
    && (forall i, j :: 0 <= i < j < |idx| ==> idx[i] < idx[j])
  }

  /** The elements of `s` at the positions `idx`. */
  function Pick<T>(s: seq<T>, idx: seq<nat>): (r: seq<T>)
    requires forall i :: 0 <= i < |idx| ==> idx[i] < |s|
    ensures |r| == |idx|
    ensures forall i :: 0 <= i < |idx| ==> r[i] == s[idx[i]]
  {
    seq(|idx|, i requires 0 <= i < |idx| => s[idx[i]])
  }

  /** Positions that start at 0 pick the first element and then, shifted
      down by one, pick the rest from the tail. */
  lemma PickTakesHead<T>(s: seq<T>, idx: seq<nat>, rest: seq<nat>)
    requires Increasing(idx, |s|) && idx != [] && idx[0] == 0
    requires |rest| == |idx| - 1 && forall i :: 0 <= i < |rest| ==> rest[i] == idx[i + 1] - 1
    ensures Increasing(rest, |s| - 1)
    ensures Pick(s, idx) == [s[0]] + Pick(s[1..], rest)
  {
    assert forall i :: 0 < i < |idx| ==> idx[0] < idx[i];
  }

  /** Positions that skip 0 pick, shifted down by one, the same elements
      from the tail. */
  lemma PickSkipsHead<T>(s: seq<T>, idx: seq<nat>, shifted: seq<nat>)
    requires Increasing(idx, |s|) && idx != [] && idx[0] > 0
    requires |shifted| == |idx| && forall i :: 0 <= i < |idx| ==> shifted[i] == idx[i] - 1
    ensures Increasing(shifted, |s| - 1)
    ensures Pick(s, idx) == Pick(s[1..], shifted)
  {
    assert forall i :: 0 <= i < |idx| ==> idx[i] >= idx[0] > 0;
  }

  /** The selections of a nonempty sequence: those that take its first
      element, then those that skip it. */
  lemma CombinationsUnfold<T>(s: seq<T>, k: nat)
    requires s != [] && k > 0
    ensures Combinations(s, k) == Prepend(s[0], Combinations(s[1..], k - 1)) + Combinations(s[1..], k)
  {
  }

  /** Putting `x` in front of a listed sequence gives a listed sequence. */
  lemma PrependKeeps<T>(x: T, cs: seq<seq<T>>, c: seq<T>)
    requires c in cs
    ensures [x] + c in Prepend(x, cs)
  {
    var j :| 0 <= j < |cs| && cs[j] == c;
    assert Prepend(x, cs)[j] == [x] + c;
  }

  /** The first element followed by a selection of the tail is listed. */
  lemma TakenHeadListed<T>(s: seq<T>, tail: seq<T>)
    requires s != [] && tail in Combinations(s[1..], |tail|)
    ensures [s[0]] + tail in Combinations(s, |tail| + 1)
  {
    PrependKeeps(s[0], Combinations(s[1..], |tail|), tail);
    CombinationsUnfold(s, |tail| + 1);
  }

  /** A nonempty selection of the tail is listed. */
  lemma SkippedHeadListed<T>(s: seq<T>, c: seq<T>)
    requires s != [] && c != [] && c in Combinations(s[1..], |c|)
    ensures c in Combinations(s, |c|)
  {
    CombinationsUnfold(s, |c|);
  }

  /** Every choice of `k` positions in increasing order is listed: nothing
      is left out of the enumeration. */
  lemma {:induction false} CombinationsComplete<T>(s: seq<T>, idx: seq<nat>)
    requires Increasing(idx, |s|)
    ensures Pick(s, idx) in Combinations(s, |idx|)
    decreases |s|
  {
    if idx != [] {
      assert idx[0] < |s|;
      if idx[0] == 0 {
        var rest := seq(|idx| - 1, i requires 0 <= i < |idx| - 1 => idx[i + 1] - 1);
        PickTakesHead(s, idx, rest);
        CombinationsComplete(s[1..], rest);
        TakenHeadListed(s, Pick(s[1..], rest));
      } else {
        var shifted := seq(|idx|, i requires 0 <= i < |idx| => idx[i] - 1);
        PickSkipsHead(s, idx, shifted);
        CombinationsComplete(s[1..], shifted);
        SkippedHeadListed(s, Pick(s[1..], shifted));
      }
    }
  }

  lemma ConsMultisetDiffer<T>(x: T, a: seq<T>, b: seq<T>)
    requires multiset(a) != multiset(b)
    ensures multiset([x] + a) != multiset([x] + b)
  {
    assert multiset(a) == multiset([x] + a) - multiset{x};
    assert multiset(b) == multiset([x] + b) - multiset{x};
  }

  /** A selection that takes the first element differs from one that skips
      it. */
  lemma TakenDiffersFromSkipped<T>(s: seq<T>, tail: seq<T>, skipped: seq<T>)
    requires Distinct(s) && s != []
    requires skipped in Combinations(s[1..], |skipped|)
    ensures multiset([s[0]] + tail) != multiset(skipped)
  {
    CombinationMembers(s[1..], |skipped|, skipped);
    assert s[0] in multiset([s[0]] + tail);
    assert s[0] !in s[1..];
    assert s[0] !in multiset(skipped);
  }

  /** From a sequence without repetitions, no two listed selections hold the
      same elements: the enumeration lists combinations, not
      permutations. */
  lemma {:induction false} CombinationsDiffer<T>(s: seq<T>, k: nat, i: nat, j: nat)
    requires Distinct(s)
    requires i < j < |Combinations(s, k)|
    ensures multiset(Combinations(s, k)[i]) != multiset(Combinations(s, k)[j])
    decreases |s|
  {
    var t := s[1..];
    assert Distinct(t);
    var all := Combinations(s, k);
    assert k > 0 && s != [];
    var tails := Combinations(t, k - 1);
    var rest := Combinations(t, k);
    var with := Prepend(s[0], tails);
    assert all == with + rest;
    if j < |with| {
      CombinationsDiffer(t, k - 1, i, j);
      ConsMultisetDiffer(s[0], tails[i], tails[j]);
      assert all[i] == [s[0]] + tails[i] && all[j] == [s[0]] + tails[j];
    } else if i >= |with| {
      CombinationsDiffer(t, k, i - |with|, j - |with|);
      assert all[i] == rest[i - |with|] && all[j] == rest[j - |with|];
    } else {
      assert all[i] == [s[0]] + tails[i];
      assert all[j] == rest[j - |with|] && all[j] in rest;
      CombinationMembers(t, k, all[j]);
      TakenDiffersFromSkipped(s, tails[i], all[j]);
    }
  }
}
