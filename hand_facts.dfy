/** What `evaluate_hand` (poker_odds.py:60-105) means in poker terms: its
    category agrees with a reference definition stated by rank multiplicities,
    suits and runs of values, and its tiebreakers hold the values the poker
    rules call for. */
module HandFacts {
  import opened Sequences
  import opened Cards
  import opened Scores
  import opened Grouping
  import opened Results
  import opened HandEvaluation

  /** Five valid cards, none repeated: the hands `evaluate_hand` scores. */
  predicate Playable(cards: seq<Card>) {
    |cards| == 5 && AllValid(cards) && Distinct(cards)
  }

  /** The score of a playable hand. */
  function ScoreOf(cards: seq<Card>): (s: Score)
    requires Playable(cards)
    ensures WellShaped(s)
  {
    Evaluate(cards).value
  }

  // ---------------------------------------------------------------------
  // Reference definitions

  /** Some value occurs exactly `c` times. */
  predicate HasGroupOf(vals: seq<int>, c: nat) {
    exists v :: v in vals && multiset(vals)[v] == c
  }

  /** Two different values occur exactly twice each. */
  predicate HasTwoPairs(vals: seq<int>) {
    exists v, w :: v in vals && w in vals && v != w && multiset(vals)[v] == 2 && multiset(vals)[w] == 2
  }

  /** Every card has the suit of the first. */
  predicate SameSuit(cards: seq<Card>) {
    forall i :: 0 <= i < |cards| ==> cards[i].suit == cards[0].suit
  }

  /** Five consecutive values starting at `lo`. */
  function Run(lo: int): set<int> {
    {lo, lo + 1, lo + 2, lo + 3, lo + 4}
  }

  /** The values form a run of five, the ace counting high or, in A-2-3-4-5,
      low. */
  predicate Consecutive(vals: seq<int>) {
    (exists lo :: lo in vals && SetOf(vals) == Run(lo)) || IsWheel(vals)
  }

  /** The category of five valid cards by the rules of poker, highest
      category first: a suited run (ten to ace: royal), four of a kind, three
      of a kind with a pair, suited, a run, three of a kind, two pairs, one
      pair, nothing. */
  function ReferenceCategory(cards: seq<Card>): int
    requires |cards| == 5 && AllValid(cards)
  {
    var vals := Values(cards);
    if SameSuit(cards) && Consecutive(vals) then
      if SetOf(vals) == Run(10) then RoyalFlush else StraightFlush
    else if HasGroupOf(vals, 4) then FourOfAKind
    else if HasGroupOf(vals, 3) && HasGroupOf(vals, 2) then FullHouse
    else if SameSuit(cards) then Flush
    else if Consecutive(vals) then Straight
    else if HasGroupOf(vals, 3) then ThreeOfAKind
    else if HasTwoPairs(vals) then TwoPair
    else if HasGroupOf(vals, 2) then OnePair
    else HighCard
  }

  // ---------------------------------------------------------------------
  // The evaluator's tests against the reference

  /** `len(set(suits)) == 1` holds exactly when all five suits are the
      same. */
  lemma FlushReference(cards: seq<Card>)
    requires |cards| == 5
    ensures |SetOf(SuitsOf(cards))| == 1 <==> SameSuit(cards)
  {
    var suits := SuitsOf(cards);
    var s := SetOf(suits);
    assert suits[0] in s;
    if SameSuit(cards) {
      assert s == {suits[0]};
    }
    if |s| == 1 {
      assert |s - {suits[0]}| == 0;
      assert s == {suits[0]};
      forall i | 0 <= i < 5 ensures cards[i].suit == cards[0].suit {
        assert suits[i] in s;
      }
    }
  }

  /** A subset as large as its superset is the whole superset. */
  lemma SubsetOfEqualSize(a: set<int>, b: set<int>)
    requires a <= b && |a| == |b|
    ensures a == b
  {
    assert b == a + (b - a);
    assert a * (b - a) == {};
  }

  /** A run of five has five values, from `lo` to `lo + 4`. */
  lemma RunFacts(lo: int)
    ensures |Run(lo)| == 5
    ensures forall x :: x in Run(lo) <==> lo <= x <= lo + 4
  {
  }

  /** Five different values spanning four are a run. */
  lemma SpanFourIsRun(vals: seq<int>)
    requires |vals| == 5 && |SetOf(vals)| == 5 && Max(vals) - Min(vals) == 4
    ensures SetOf(vals) == Run(Min(vals))
  {
    var lo := Min(vals);
    RunFacts(lo);
    assert SetOf(vals) <= Run(lo);
    SubsetOfEqualSize(SetOf(vals), Run(lo));
  }

  /** A run is five different values spanning four. */
  lemma RunSpansFour(vals: seq<int>, lo: int)
    requires |vals| == 5 && SetOf(vals) == Run(lo)
    ensures |SetOf(vals)| == 5 && Min(vals) == lo && Max(vals) == lo + 4
  {
    RunFacts(lo);
    assert lo in SetOf(vals) && lo + 4 in SetOf(vals);
    assert Min(vals) in SetOf(vals) && Max(vals) in SetOf(vals);
  }

  /** The straight test (`len(set(ranks)) == 5 and max - min == 4`, or the
      wheel) holds exactly when the values form a run of five. */
  lemma StraightReference(vals: seq<int>)
    requires |vals| == 5
    ensures IsStraight(vals) <==> Consecutive(vals)
    ensures IsStraight(vals) && !IsWheel(vals) ==> SetOf(vals) == Run(Min(vals))
  {
    if |SetOf(vals)| == 5 && Max(vals) - Min(vals) == 4 {
      SpanFourIsRun(vals);
      assert Min(vals) in vals;
    }
    if exists a :: a in vals && SetOf(vals) == Run(a) {
      var a :| a in vals && SetOf(vals) == Run(a);
      RunSpansFour(vals, a);
    }
  }

  /** Among straights, `max(ranks) == 14 and min(ranks) == 10` holds exactly
      for ten to ace. */
  lemma RoyalReference(vals: seq<int>)
    requires |vals| == 5 && IsStraight(vals)
    ensures Max(vals) == 14 && Min(vals) == 10 <==> SetOf(vals) == Run(10)
  {
    StraightReference(vals);
    var s := SetOf(vals);
    assert Max(vals) in s && Min(vals) in s;
    if !IsWheel(vals) {
      assert s == Run(Min(vals));
      if s == Run(10) {
        assert 10 in s && 14 in s;
      }
    }
  }

  /** The ordered counter's first two items decide the multiplicity
      patterns: a value occurring four or three times, a full house, two
      pairs and a lone pair. */
  lemma CountsReference(vals: seq<int>)
    requires |vals| == 5 && InRange(vals)
    ensures var gs := Groups(vals);
      && |gs| >= 1
      && (HasGroupOf(vals, 4) <==> gs[0].count == 4)
      && (HasGroupOf(vals, 3) <==> gs[0].count == 3)
      && (HasGroupOf(vals, 3) && HasGroupOf(vals, 2) <==> gs[0].count == 3 && |gs| >= 2 && gs[1].count == 2)
      && (HasTwoPairs(vals) <==> gs[0].count == 2 && |gs| >= 2 && gs[1].count == 2)
      && (HasGroupOf(vals, 2) && !HasGroupOf(vals, 3) <==> gs[0].count == 2)
  {
    var m := multiset(vals);
    var gs := Groups(vals);
    GroupsShape(vals);
    GroupsOrdered(vals);
    var a := gs[0];
    GroupIsPresent(vals, a);
    if |gs| >= 2 {
      GroupIsPresent(vals, gs[1]);
      GroupValuesDiffer(vals, 0, 1);
      PairWithin(vals, a.value, gs[1].value);
    }
    forall c: nat | c >= 3 && HasGroupOf(vals, c) ensures a.count == c {
      var v :| v in vals && m[v] == c;
      FirstIsLargest(vals, v);
      if v != a.value {
        PairWithin(vals, v, a.value);
      }
    }
    if HasGroupOf(vals, 3) && HasGroupOf(vals, 2) {
      var w :| w in vals && m[w] == 2;
      assert a.count == 3;
      SecondIsNextLargest(vals, w);
    }
    if HasTwoPairs(vals) {
      var v, w :| v in vals && w in vals && v != w && m[v] == 2 && m[w] == 2;
      FirstIsLargest(vals, v);
      if a.value != v && a.value != w {
        TripleWithin(vals, a.value, v, w);
      }
      var other := if a.value != v then v else w;
      SecondIsNextLargest(vals, other);
    }
    if HasGroupOf(vals, 2) {
      var v :| v in vals && m[v] == 2;
      FirstIsLargest(vals, v);
      if v != a.value {
        PairWithin(vals, v, a.value);
      }
    }
    if a.count == 2 {
      forall v | v in vals ensures m[v] != 3 {
        FirstIsLargest(vals, v);
      }
    }
  }

  // ---------------------------------------------------------------------
  // Category

  /** `evaluate_hand` puts every playable hand in the category the rules of
      poker give it. */
  lemma CategoryMatchesReference(cards: seq<Card>)
    requires Playable(cards)
    ensures ScoreOf(cards).category == ReferenceCategory(cards)
  {
    var vals := Values(cards);
    FlushReference(cards);
    StraightReference(vals);
    CountsReference(vals);
    if IsStraight(vals) {
      RoyalReference(vals);
    }
  }

  // ---------------------------------------------------------------------
  // Tiebreakers

  /** A playable hand's score is the classification of its features. */
  lemma ScoreIsClassify(cards: seq<Card>)
    requires Playable(cards)
    ensures ScoreOf(cards) == Classify(FeaturesOf(cards))
  {
  }

  /** Which test and which counter items each category comes from. */
  lemma ClassifyCases(f: Features)
    requires Consistent(f)
    ensures var s, c := Classify(f), f.counts;
      && (s.category == FourOfAKind ==> c[0].count == 4 && s.tiebreakers == [c[0].value, c[1].value])
      && (s.category == FullHouse ==> c[0].count == 3 && c[1].count == 2 && s.tiebreakers == [c[0].value, c[1].value])
      && (s.category == TwoPair ==>
            c[0].count == 2 && c[1].count == 2 && s.tiebreakers == SortDesc([c[0].value, c[1].value]) + [c[2].value])
      && (s.category == ThreeOfAKind ==> c[0].count == 3 && s.tiebreakers == [c[0].value] + f.kickers)
      && (s.category == OnePair ==> c[0].count == 2 && s.tiebreakers == [c[0].value] + f.kickers)
      && (s.category == Flush || s.category == HighCard ==> !f.isStraight && s.tiebreakers == f.sortedRanks)
      && (s.category == Straight || s.category == StraightFlush ==> f.isStraight && s.tiebreakers == [f.straightHigh])
  {
  }

  /** The straight's tiebreaker is used by the two straight categories only. */
  lemma ClassifyStraightHigh(f: Features, x: int)
    requires Consistent(f)
    ensures var s := Classify(f);
      Classify(f.(straightHigh := x)) ==
        if s.category == Straight || s.category == StraightFlush then Score(s.category, [x]) else s
  {
  }

  /** Four of a kind: `[quad value, kicker]`. */
  lemma FourOfAKindTiebreakers(cards: seq<Card>)
    requires Playable(cards) && ScoreOf(cards).category == FourOfAKind
    ensures var tb, m := ScoreOf(cards).tiebreakers, multiset(Values(cards));
      |tb| == 2 && m[tb[0]] == 4 && m[tb[1]] == 1
  {
    var vals := Values(cards);
    var f := FeaturesOf(cards);
    ScoreIsClassify(cards);
    ClassifyCases(f);
    var gs := f.counts;
    assert gs[0].count == 4;
    assert ScoreOf(cards).tiebreakers == [gs[0].value, gs[1].value];
    GroupIsPresent(vals, gs[0]);
    GroupIsPresent(vals, gs[1]);
    GroupValuesDiffer(vals, 0, 1);
    PairWithin(vals, gs[0].value, gs[1].value);
  }

  /** Full house: `[trips value, pair value]`. */
  lemma FullHouseTiebreakers(cards: seq<Card>)
    requires Playable(cards) && ScoreOf(cards).category == FullHouse
    ensures var tb, m := ScoreOf(cards).tiebreakers, multiset(Values(cards));
      |tb| == 2 && m[tb[0]] == 3 && m[tb[1]] == 2
  {
    var vals := Values(cards);
    var f := FeaturesOf(cards);
    ScoreIsClassify(cards);
    ClassifyCases(f);
    var gs := f.counts;
    assert gs[0].count == 3 && gs[1].count == 2;
    assert ScoreOf(cards).tiebreakers == [gs[0].value, gs[1].value];
    GroupIsPresent(vals, gs[0]);
    GroupIsPresent(vals, gs[1]);
  }

  /** With two items of count 2 first, the pairs sorted high to low followed
      by the third item are two pair values and the lone kicker. */
  lemma TwoPairGroups(vals: seq<int>, tb: seq<int>)
    requires |vals| == 5 && InRange(vals)
    requires |Groups(vals)| >= 2 && Groups(vals)[0].count == 2 && Groups(vals)[1].count == 2
    requires |Groups(vals)| >= 3
    requires tb == SortDesc([Groups(vals)[0].value, Groups(vals)[1].value]) + [Groups(vals)[2].value]
    ensures var m := multiset(vals);
      |tb| == 3 && tb[0] > tb[1] && m[tb[0]] == 2 && m[tb[1]] == 2 && m[tb[2]] == 1
  {
    var gs := Groups(vals);
    var a, b, c := gs[0], gs[1], gs[2];
    GroupIsPresent(vals, a);
    GroupIsPresent(vals, b);
    GroupIsPresent(vals, c);
    GroupValuesDiffer(vals, 0, 1);
    GroupValuesDiffer(vals, 0, 2);
    GroupValuesDiffer(vals, 1, 2);
    TripleWithin(vals, a.value, b.value, c.value);
    SortPair(a.value, b.value);
  }

  /** Two pair: `[higher pair, lower pair, kicker]`. */
  lemma TwoPairTiebreakers(cards: seq<Card>)
    requires Playable(cards) && ScoreOf(cards).category == TwoPair
    ensures var tb, m := ScoreOf(cards).tiebreakers, multiset(Values(cards));
      |tb| == 3 && tb[0] > tb[1] && m[tb[0]] == 2 && m[tb[1]] == 2 && m[tb[2]] == 1
  {
    var f := FeaturesOf(cards);
    ScoreIsClassify(cards);
    ClassifyCases(f);
    TwoPairGroups(f.values, ScoreOf(cards).tiebreakers);
  }

  /** Three of a kind: the trips value, then the other values highest
      first. */
  lemma ThreeOfAKindTiebreakers(cards: seq<Card>)
    requires Playable(cards) && ScoreOf(cards).category == ThreeOfAKind
    ensures var tb, m := ScoreOf(cards).tiebreakers, multiset(Values(cards));
      && |tb| == 3 && m[tb[0]] == 3
      && IsDescending(tb[1..]) && multiset(tb[1..]) == m[tb[0] := 0]
  {
    var vals := Values(cards);
    var f := FeaturesOf(cards);
    ScoreIsClassify(cards);
    ClassifyCases(f);
    var gs := f.counts;
    assert gs[0].count == 3;
    var tb := [gs[0].value] + f.kickers;
    assert ScoreOf(cards).tiebreakers == tb;
    assert tb[1..] == f.kickers == Kickers(vals, gs[0].value);
    GroupIsPresent(vals, gs[0]);
  }

  /** One pair: the pair value, then the other values highest first. */
  lemma OnePairTiebreakers(cards: seq<Card>)
    requires Playable(cards) && ScoreOf(cards).category == OnePair
    ensures var tb, m := ScoreOf(cards).tiebreakers, multiset(Values(cards));
      && |tb| == 4 && m[tb[0]] == 2
      && IsDescending(tb[1..]) && multiset(tb[1..]) == m[tb[0] := 0]
  {
    var vals := Values(cards);
    var f := FeaturesOf(cards);
    ScoreIsClassify(cards);
    ClassifyCases(f);
    var gs := f.counts;
    assert gs[0].count == 2;
    var tb := [gs[0].value] + f.kickers;
    assert ScoreOf(cards).tiebreakers == tb;
    assert tb[1..] == f.kickers == Kickers(vals, gs[0].value);
    GroupIsPresent(vals, gs[0]);
  }

  /** Flush and high card: all five values, highest first. */
  lemma AllValuesTiebreakers(cards: seq<Card>)
    requires Playable(cards)
    requires ScoreOf(cards).category == Flush || ScoreOf(cards).category == HighCard
    ensures var tb := ScoreOf(cards).tiebreakers;
      IsDescending(tb) && multiset(tb) == multiset(Values(cards))
  {
    var vals := Values(cards);
    var f := FeaturesOf(cards);
    ScoreIsClassify(cards);
    ClassifyCases(f);
    assert !f.isStraight;
    assert ScoreOf(cards).tiebreakers == f.sortedRanks == SortDesc(vals);
  }

  /** Straight and straight flush: the top of the run, which is 5 for
      A-2-3-4-5. */
  lemma StraightTiebreaker(cards: seq<Card>)
    requires Playable(cards)
    requires ScoreOf(cards).category == Straight || ScoreOf(cards).category == StraightFlush
    ensures var vals := Values(cards);
      ScoreOf(cards).tiebreakers == [if IsWheel(vals) then 5 else Max(vals)]
  {
    var vals := Values(cards);
    var f := FeaturesOf(cards);
    ScoreIsClassify(cards);
    ClassifyCases(f);
    assert f.straightHigh == SortedRanks(vals)[0];
    if !IsWheel(vals) {
      DescendingHeadIsMax(SortDesc(vals), vals);
    }
  }

  // ---------------------------------------------------------------------
  // Runs, the wheel and the royal flush

  /** The five values of a run are all different. */
  lemma RunValuesOnce(vals: seq<int>)
    requires |vals| == 5 && Consecutive(vals)
    ensures forall v :: multiset(vals)[v] <= 1
  {
    if IsWheel(vals) {
      assert |SetOf(vals)| == 5;
    } else {
      var lo :| lo in vals && SetOf(vals) == Run(lo);
      RunSpansFour(vals, lo);
    }
    SetSizeDistinct(vals);
    forall v {
      DistinctOnce(vals, v);
    }
  }

  /** A-2-3-4-5 is not ten to ace. */
  lemma WheelIsNotBroadway(vals: seq<int>)
    requires IsWheel(vals)
    ensures SetOf(vals) != Run(10)
  {
    assert 10 !in SetOf(vals);
  }

  /** `max([5, 4, 3, 2, 14])` */
  lemma WheelRanksMax()
    ensures Max([5, 4, 3, 2, 14]) == 14
  {
    var r := [5, 4, 3, 2, 14];
    assert 14 in r;
    assert forall x :: x in r ==> x <= 14;
  }

  /** A suited run is a royal flush `(10, [])` when it runs ten to ace and a
      straight flush otherwise, A-2-3-4-5 included, with tiebreaker 5 for
      A-2-3-4-5. */
  lemma SuitedRunScore(cards: seq<Card>)
    requires Playable(cards) && SameSuit(cards) && Consecutive(Values(cards))
    ensures var vals := Values(cards);
      && (SetOf(vals) == Run(10) ==> ScoreOf(cards) == Score(RoyalFlush, []))
      && (SetOf(vals) != Run(10) ==> ScoreOf(cards).category == StraightFlush)
      && (IsWheel(vals) ==> ScoreOf(cards) == Score(StraightFlush, [5]))
  {
    var vals := Values(cards);
    CategoryMatchesReference(cards);
    if IsWheel(vals) {
      WheelIsNotBroadway(vals);
      StraightTiebreaker(cards);
    }
  }

  /** An unsuited run is a straight, with tiebreaker 5 for A-2-3-4-5 and its
      top value otherwise. */
  lemma UnsuitedRunScore(cards: seq<Card>)
    requires Playable(cards) && !SameSuit(cards) && Consecutive(Values(cards))
    ensures var vals := Values(cards);
      ScoreOf(cards) == Score(Straight, [if IsWheel(vals) then 5 else Max(vals)])
  {
    var vals := Values(cards);
    RunValuesOnce(vals);
    assert !HasGroupOf(vals, 4) && !HasGroupOf(vals, 3);
    CategoryMatchesReference(cards);
    StraightTiebreaker(cards);
  }

  /** With the wheel scored by its five, A-2-3-4-5 ranks below every other
      run of its category. */
  lemma WheelIsLowestStraight(w: seq<Card>, c: seq<Card>)
    requires Playable(w) && Playable(c)
    requires ScoreOf(w).category == ScoreOf(c).category
    requires ScoreOf(w).category == Straight || ScoreOf(w).category == StraightFlush
    requires IsWheel(Values(w)) && !IsWheel(Values(c))
    ensures Less(ScoreOf(w), ScoreOf(c))
  {
    var vc := Values(c);
    StraightTiebreaker(w);
    StraightTiebreaker(c);
    ScoreIsClassify(c);
    ClassifyCases(FeaturesOf(c));
    StraightReference(vc);
    RunSpansFour(vc, Min(vc));
    assert ScoreOf(c).tiebreakers == [Max(vc)] && Max(vc) >= 6;
  }

  // ---------------------------------------------------------------------
  // The straight's tiebreaker as written

  /** Off the wheel, taking `max(sorted_ranks)` or the first of
      `sorted_ranks` as the straight's tiebreaker makes no difference. */
  lemma AsWrittenAgreesOffWheel(cards: seq<Card>)
    requires Playable(cards) && !IsWheel(Values(cards))
    ensures EvaluateAsWritten(cards) == Evaluate(cards)
  {
    var f := FeaturesOf(cards);
    var r := f.sortedRanks;
    assert r == SortDesc(f.values);
    HeadIsMax(r);
    assert Max(r) in multiset(r);
    assert Max(r) == r[0];
    assert f.(straightHigh := Max(r)) == f;
  }

  /** On the wheel, `max(sorted_ranks)` is 14: the code as written scores
      A-2-3-4-5 by its ace, where the corrected evaluation scores it by its
      five. */
  lemma AsWrittenWheel(cards: seq<Card>)
    requires Playable(cards) && IsWheel(Values(cards))
    ensures ScoreOf(cards).tiebreakers == [5]
    ensures EvaluateAsWritten(cards) == Ok(Score(ScoreOf(cards).category, [14]))
  {
    var vals := Values(cards);
    var f := FeaturesOf(cards);
    assert f.sortedRanks == [5, 4, 3, 2, 14];
    WheelRanksMax();
    ScoreIsClassify(cards);
    ClassifyCases(f);
    ClassifyStraightHigh(f, 14);
    assert IsStraight(vals);
    FlushReference(cards);
    if SameSuit(cards) {
      SuitedRunScore(cards);
    } else {
      UnsuitedRunScore(cards);
    }
  }

  /** A-2-3-4-5 in mixed suits. */
  const Wheel: seq<Card> := [Card("A", "H"), Card("2", "D"), Card("3", "C"), Card("4", "S"), Card("5", "H")]

  /** 10-J-Q-K-A in mixed suits. */
  const Broadway: seq<Card> := [Card("10", "H"), Card("J", "D"), Card("Q", "C"), Card("K", "S"), Card("A", "H")]

  /** Five valid cards, all different. */
  lemma FiveDifferentCards(h: seq<Card>)
    requires |h| == 5 && forall i :: 0 <= i < 5 ==> ValidCard(h[i])
    requires forall i, j :: 0 <= i < j < 5 ==> h[i].rank != h[j].rank
    ensures Playable(h)
  {
  }

  /** Five valid cards with the given values. */
  lemma ValuesOfFive(h: seq<Card>, vals: seq<int>)
    requires |h| == 5 == |vals| && AllValid(h)
    requires forall i :: 0 <= i < 5 ==> Value(h[i]) == vals[i]
    ensures Values(h) == vals
  {
  }

  lemma WheelCards()
    ensures AllValid(Wheel)
    ensures Value(Wheel[0]) == 14 && Value(Wheel[1]) == 2 && Value(Wheel[2]) == 3
    ensures Value(Wheel[3]) == 4 && Value(Wheel[4]) == 5
  {
  }

  lemma WheelValues()
    ensures Playable(Wheel) && Values(Wheel) == [14, 2, 3, 4, 5]
  {
    FiveDifferentCards(Wheel);
    WheelCards();
    ValuesOfFive(Wheel, [14, 2, 3, 4, 5]);
  }

  lemma WheelHand()
    ensures Playable(Wheel) && !SameSuit(Wheel) && IsWheel(Values(Wheel))
  {
    WheelValues();
    var v: seq<int> := [14, 2, 3, 4, 5];
    assert SetOf(v) == {2, 3, 4, 5, 14} by {
      assert forall x :: x in v <==> x in {2, 3, 4, 5, 14};
    }
    assert Wheel[1].suit != Wheel[0].suit;
  }

  lemma BroadwayCards()
    ensures AllValid(Broadway)
    ensures Value(Broadway[0]) == 10 && Value(Broadway[1]) == 11 && Value(Broadway[2]) == 12
    ensures Value(Broadway[3]) == 13 && Value(Broadway[4]) == 14
  {
  }

  lemma BroadwayValues()
    ensures Playable(Broadway) && Values(Broadway) == [10, 11, 12, 13, 14]
  {
    FiveDifferentCards(Broadway);
    BroadwayCards();
    ValuesOfFive(Broadway, [10, 11, 12, 13, 14]);
  }

  lemma BroadwayHand()
    ensures Playable(Broadway) && !SameSuit(Broadway)
    ensures Consecutive(Values(Broadway)) && !IsWheel(Values(Broadway)) && Max(Values(Broadway)) == 14
  {
    BroadwayValues();
    var vb: seq<int> := [10, 11, 12, 13, 14];
    assert SetOf(vb) == Run(10) by {
      assert forall x :: x in vb <==> x in Run(10);
    }
    assert 10 in vb && 14 in vb && 2 !in SetOf(vb);
    assert Broadway[1].suit != Broadway[0].suit;
  }

  /** As written, the mixed-suit wheel and the mixed-suit ten-to-ace straight
      get the same score `(5, [14])`, so the lowest straight ties the highest;
      the corrected evaluation scores them `(5, [5])` and `(5, [14])`. */
  lemma WheelTiesBroadwayAsWritten()
    ensures EvaluateAsWritten(Wheel) == EvaluateAsWritten(Broadway) == Ok(Score(Straight, [14]))
    ensures Evaluate(Wheel) == Ok(Score(Straight, [5]))
    ensures Evaluate(Broadway) == Ok(Score(Straight, [14]))
  {
    WheelHand();
    BroadwayHand();
    UnsuitedRunScore(Wheel);
    UnsuitedRunScore(Broadway);
    AsWrittenWheel(Wheel);
    AsWrittenAgreesOffWheel(Broadway);
  }
}
