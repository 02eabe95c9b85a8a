/** The rank multiplicities of a hand: `Counter(ranks)` ordered by
    `key=lambda x: (-x[1], -x[0])` (poker_odds.py:72, poker_odds.py:82).
    The counter is the multiset of the rank values; the ordered item list is
    built by listing, for each multiplicity from the hand size down to 1, the
    values from the highest present down to 2 that occur exactly that often.
    For values in 2..14 this is the same list as sorting the counter's
    items. */
module Grouping {
  import opened Sequences

  /** One `(value, count)` item of the counter. */
  datatype Group = Group(value: int, count: nat)

  /** The values `top` down to 2 that occur exactly `c` times in `m`. */
  function WithCount(m: multiset<int>, c: nat, top: int): seq<Group>
    decreases top
  {
    if top < 2 then []
    else (if m[top] == c then [Group(top, c)] else []) + WithCount(m, c, top - 1)
  }

  /** The groups of multiplicity `c` down to 1, highest multiplicity first. */
  function GroupsFrom(m: multiset<int>, c: nat, top: int): seq<Group>
    decreases c
  {
    if c == 0 then [] else WithCount(m, c, top) + GroupsFrom(m, c - 1, top)
  }

  /** `sorted(Counter(vals).items(), key=lambda x: (-x[1], -x[0]))` */
  function Groups(vals: seq<int>): seq<Group> {
    if vals == [] then [] else GroupsFrom(multiset(vals), |vals|, Max(vals))
  }

  /** Strictly ordered by count descending, then value descending. */
  predicate Ordered(gs: seq<Group>) {
    forall i, j :: 0 <= i < j < |gs| ==>
      gs[i].count > gs[j].count || (gs[i].count == gs[j].count && gs[i].value > gs[j].value)
  }

  predicate InRange(vals: seq<int>) {
    forall x :: x in vals ==> 2 <= x <= 14
  }

  lemma {:induction false} WithCountMembers(m: multiset<int>, c: nat, top: int)
    ensures forall g :: g in WithCount(m, c, top) <==> g.count == c && 2 <= g.value <= top && m[g.value] == c
    decreases top
  {
    if top >= 2 {
      WithCountMembers(m, c, top - 1);
    }
  }

  lemma {:induction false} WithCountOrdered(m: multiset<int>, c: nat, top: int)
    ensures Ordered(WithCount(m, c, top))
    decreases top
  {
    if top >= 2 {
      WithCountOrdered(m, c, top - 1);
      WithCountMembers(m, c, top - 1);
    }
  }

  lemma OrderedConcat(a: seq<Group>, b: seq<Group>)
    requires Ordered(a) && Ordered(b)
    requires forall x, y :: x in a && y in b ==> x.count > y.count
    ensures Ordered(a + b)
  {
    var ab := a + b;
    forall i, j | 0 <= i < j < |ab|
      ensures ab[i].count > ab[j].count || (ab[i].count == ab[j].count && ab[i].value > ab[j].value)
    {
      if j >= |a| && i < |a| {
        assert ab[i] in a && ab[j] in b;
      } else if i >= |a| {
        assert ab[i] == b[i - |a|] && ab[j] == b[j - |a|];
      }
    }
  }

  lemma {:induction false} GroupsFromMembers(m: multiset<int>, c: nat, top: int)
    ensures forall g :: g in GroupsFrom(m, c, top) <==> 1 <= g.count <= c && 2 <= g.value <= top && m[g.value] == g.count
    decreases c
  {
    if c > 0 {
      WithCountMembers(m, c, top);
      GroupsFromMembers(m, c - 1, top);
    }
  }

  /** Every group of multiplicity `d + 1` outranks every group of lower
      multiplicity. */
  lemma CountsSeparate(m: multiset<int>, c: nat, d: nat, top: int, x: Group, y: Group)
    requires c == d + 1 && x in WithCount(m, c, top) && y in GroupsFrom(m, d, top)
    ensures x.count > y.count
  {
    WithCountMembers(m, c, top);
    GroupsFromMembers(m, d, top);
  }

  lemma {:induction false} GroupsFromOrdered(m: multiset<int>, c: nat, top: int)
    ensures Ordered(GroupsFrom(m, c, top))
    decreases c
  {
    if c > 0 {
      var d: nat := c - 1;
      var a := WithCount(m, c, top);
      var b := GroupsFrom(m, d, top);
      WithCountOrdered(m, c, top);
      GroupsFromOrdered(m, d, top);
      forall x, y | x in a && y in b ensures x.count > y.count {
        CountsSeparate(m, c, d, top, x, y);
      }
      OrderedConcat(a, b);
      assert GroupsFrom(m, c, top) == a + b;
    }
  }

  /** The counter items are ordered by count, then by value, both
      descending. */
  lemma GroupsOrdered(vals: seq<int>)
    ensures Ordered(Groups(vals))
  {
    if vals != [] {
      GroupsFromOrdered(multiset(vals), |vals|, Max(vals));
    }
  }

  /** Every value present has its counter item. */
  lemma GroupOf(vals: seq<int>, x: int)
    requires InRange(vals) && x in vals
    ensures Group(x, multiset(vals)[x]) in Groups(vals)
  {
    GroupsFromMembers(multiset(vals), |vals|, Max(vals));
    CountsWithin(vals, [x]);
  }

  /** Every counter item is a value present with its multiplicity. */
  lemma GroupIsPresent(vals: seq<int>, g: Group)
    requires g in Groups(vals)
    ensures g.value in vals && multiset(vals)[g.value] == g.count >= 1
  {
    if vals != [] {
      GroupsFromMembers(multiset(vals), |vals|, Max(vals));
    }
  }

  /** A counter item's count is its value's multiplicity. */
  lemma GroupMultiplicity(vals: seq<int>, g: Group)
    requires g in Groups(vals)
    ensures multiset(vals)[g.value] == g.count
  {
    GroupIsPresent(vals, g);
  }

  /** Two counter items have different values. */
  lemma GroupValuesDiffer(vals: seq<int>, i: nat, j: nat)
    requires i < j < |Groups(vals)|
    ensures Groups(vals)[i].value != Groups(vals)[j].value
    ensures Groups(vals)[i].count >= Groups(vals)[j].count
  {
    GroupsOrdered(vals);
    GroupIsPresent(vals, Groups(vals)[i]);
    GroupIsPresent(vals, Groups(vals)[j]);
  }

  /** A single counter item accounts for every element. */
  lemma OneGroupCoversAll(vals: seq<int>)
    requires InRange(vals) && |Groups(vals)| == 1
    ensures Groups(vals)[0].count == |vals|
  {
    var m := multiset(vals);
    var gs := Groups(vals);
    forall x | x in vals ensures x in [gs[0].value] {
      GroupOf(vals, x);
      assert gs == [gs[0]];
    }
    CountsWithin(vals, [gs[0].value]);
    GroupIsPresent(vals, gs[0]);
  }

  lemma OnlyTwoValues(vals: seq<int>, x: int)
    requires InRange(vals) && |Groups(vals)| == 2 && x in vals
    ensures x == Groups(vals)[0].value || x == Groups(vals)[1].value
  {
    var gs := Groups(vals);
    GroupOf(vals, x);
    assert gs == [gs[0], gs[1]];
  }

  /** Two counter items account for every element. */
  lemma TwoGroupsCoverAll(vals: seq<int>)
    requires InRange(vals) && |Groups(vals)| == 2
    ensures Groups(vals)[0].count + Groups(vals)[1].count == |vals|
  {
    var m := multiset(vals);
    var a, b := Groups(vals)[0], Groups(vals)[1];
    var ws := [a.value, b.value];
    GroupValuesDiffer(vals, 0, 1);
    forall x | x in vals ensures x in ws {
      OnlyTwoValues(vals, x);
    }
    CountsWithin(vals, ws);
    SumOverPair(m, a.value, b.value);
    GroupIsPresent(vals, a);
    GroupIsPresent(vals, b);
  }

  /** How many counter items there are, for a list of rank values: the first
      one or two items leave room for further items exactly when they do not
      account for every element. */
  lemma GroupsShape(vals: seq<int>)
    requires InRange(vals) && |vals| > 0
    ensures var gs := Groups(vals);
      && |gs| >= 1
      && (gs[0].count < |vals| ==> |gs| >= 2)
      && (|gs| >= 2 && gs[0].count + gs[1].count < |vals| ==> |gs| >= 3)
  {
    GroupOf(vals, vals[0]);
    if |Groups(vals)| == 1 {
      OneGroupCoversAll(vals);
    } else if |Groups(vals)| == 2 {
      TwoGroupsCoverAll(vals);
    }
  }

  /** Two different values together occur no more often than there are
      elements. */
  lemma PairWithin(vals: seq<int>, v: int, w: int)
    requires v != w
    ensures multiset(vals)[v] + multiset(vals)[w] <= |vals|
  {
    CountsWithin(vals, [v, w]);
    SumOverPair(multiset(vals), v, w);
  }

  /** Three different values together occur no more often than there are
      elements. */
  lemma TripleWithin(vals: seq<int>, u: int, v: int, w: int)
    requires u != v && u != w && v != w
    ensures multiset(vals)[u] + multiset(vals)[v] + multiset(vals)[w] <= |vals|
  {
    var m := multiset(vals);
    CountsWithin(vals, [u, v, w]);
    assert [u, v, w][1..] == [v, w];
    SumOverPair(m, v, w);
  }

  /** The first counter item has the highest multiplicity. */
  lemma FirstIsLargest(vals: seq<int>, v: int)
    requires InRange(vals) && v in vals
    ensures |Groups(vals)| >= 1 && multiset(vals)[v] <= Groups(vals)[0].count
  {
    var gs := Groups(vals);
    GroupOf(vals, v);
    var i :| 0 <= i < |gs| && gs[i] == Group(v, multiset(vals)[v]);
    if i > 0 {
      GroupValuesDiffer(vals, 0, i);
    }
  }

  /** Any value other than the first item's occurs at most as often as the
      second item. */
  lemma SecondIsNextLargest(vals: seq<int>, v: int)
    requires InRange(vals) && |Groups(vals)| >= 1 && v in vals && v != Groups(vals)[0].value
    ensures |Groups(vals)| >= 2 && multiset(vals)[v] <= Groups(vals)[1].count
  {
    var gs := Groups(vals);
    GroupOf(vals, v);
    var i :| 0 <= i < |gs| && gs[i] == Group(v, multiset(vals)[v]);
    assert i != 0;
    if i > 1 {
      GroupValuesDiffer(vals, 1, i);
    }
  }
}
