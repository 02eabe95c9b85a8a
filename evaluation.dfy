/** `evaluate_hand` (poker_odds.py:60-105): validates five cards and maps them
    to a score (category 1..10, tiebreaker list). */
module HandEvaluation {
  import opened Sequences
  import opened Cards
  import opened Scores
  import opened Grouping
  import opened Results

  /** The `HandRank` enumeration values. */
  const HighCard := 1
  const OnePair := 2
  const TwoPair := 3
  const ThreeOfAKind := 4
  const Straight := 5
  const Flush := 6
  const FullHouse := 7
  const FourOfAKind := 8
  const StraightFlush := 9
  const RoyalFlush := 10

  /** The three `ValueError`s `evaluate_hand` raises. */
  datatype EvalError = WrongCardCount | InvalidCard | DuplicateCard

  /** `[values[card.rank] for card in cards]` */
  function Values(cards: seq<Card>): (vals: seq<int>)
    requires AllValid(cards)
    ensures |vals| == |cards|
    ensures forall i :: 0 <= i < |cards| ==> vals[i] == Value(cards[i])
    ensures InRange(vals)
  {
    seq(|cards|, i requires 0 <= i < |cards| => Value(cards[i]))
  }

  /** `[card.suit for card in cards]` */
  function SuitsOf(cards: seq<Card>): (suits: seq<string>)
    ensures |suits| == |cards|
    ensures forall i :: 0 <= i < |cards| ==> suits[i] == cards[i].suit
  {
    seq(|cards|, i requires 0 <= i < |cards| => cards[i].suit)
  }

  /** The ace-low straight A-2-3-4-5. */
  predicate IsWheel(vals: seq<int>) {
    SetOf(vals) == {2, 3, 4, 5, 14}
  }

  /** `is_straight` after the wheel adjustment. */
  predicate IsStraight(vals: seq<int>)
    requires |vals| > 0
  {
    (|SetOf(vals)| == 5 && Max(vals) - Min(vals) == 4) || IsWheel(vals)
  }

  /** `sorted_ranks` after the wheel adjustment. */
  function SortedRanks(vals: seq<int>): (r: seq<int>)
    ensures |vals| == 5 ==> |r| == 5
  {
    if IsWheel(vals) then [5, 4, 3, 2, 14] else SortDesc(vals)
  }

  /** `sorted([val for val in ranks if val != v], reverse=True)`: the values
      other than `v`, highest first. */
  function Kickers(vals: seq<int>, v: int): (k: seq<int>)
    ensures IsDescending(k)
    ensures multiset(k) == multiset(vals)[v := 0]
    ensures |k| == |vals| - multiset(vals)[v]
  {
    SortDesc(Without(vals, v))
  }

  /** What `evaluate_hand` computes from a validated hand before it
      classifies: the rank values, the ordered counter items, the flush and
      straight tests, the highest and lowest value, `sorted_ranks` after the
      wheel adjustment, the straight's tiebreaker, and the values other than
      the most frequent one, highest first (the kickers of three of a kind
      and one pair). */
  datatype Features = Features(
    values: seq<int>,
    counts: seq<Group>,
    isFlush: bool,
    isStraight: bool,
    maxRank: int,
    minRank: int,
    sortedRanks: seq<int>,
    straightHigh: int,
    kickers: seq<int>)

  /** The sizes `Classify` relies on: there is a first counter item, a second
      one when the first does not cover the hand, a third when the first two
      do not, five sorted ranks, and a kicker for every card outside the
      first item. */
  predicate Consistent(f: Features) {
    && |f.values| == 5
    && |f.counts| >= 1
    && (f.counts[0].count < 5 ==> |f.counts| >= 2)
    && (|f.counts| >= 2 && f.counts[0].count + f.counts[1].count < 5 ==> |f.counts| >= 3)
    && |f.sortedRanks| == 5
    && |f.kickers| == 5 - f.counts[0].count
  }

  /** The features of five valid cards, with the straight's tiebreaker taken
      as the first of `sorted_ranks`: 5 for the wheel, the top value
      otherwise. */
  function FeaturesOf(cards: seq<Card>): (f: Features)
    requires |cards| == 5 && AllValid(cards)
    ensures Consistent(f)
    ensures f.values == Values(cards) && f.counts == Groups(f.values)
  {
    var vals := Values(cards);
    var counts := Groups(vals);
    GroupsShape(vals);
    GroupMultiplicity(vals, counts[0]);
    Features(
      vals,
      counts,
      |SetOf(SuitsOf(cards))| == 1,
      IsStraight(vals),
      Max(vals),
      Min(vals),
      SortedRanks(vals),
      SortedRanks(vals)[0],
      Kickers(vals, counts[0].value))
  }

  /** The first-match classification (poker_odds.py:84-105). */
  function Classify(f: Features): Score
    requires Consistent(f)
  {
    var counts := f.counts;
    if f.isFlush && f.isStraight then
      if f.maxRank == 14 && f.minRank == 10 then Score(RoyalFlush, [])
      else Score(StraightFlush, [f.straightHigh])
    else if counts[0].count == 4 then Score(FourOfAKind, [counts[0].value, counts[1].value])
    else if counts[0].count == 3 && counts[1].count == 2 then Score(FullHouse, [counts[0].value, counts[1].value])
    else if f.isFlush then Score(Flush, f.sortedRanks)
    else if f.isStraight then Score(Straight, [f.straightHigh])
    else if counts[0].count == 3 then Score(ThreeOfAKind, [counts[0].value] + f.kickers)
    else if counts[0].count == 2 && counts[1].count == 2 then
      Score(TwoPair, SortDesc([counts[0].value, counts[1].value]) + [counts[2].value])
    else if counts[0].count == 2 then Score(OnePair, [counts[0].value] + f.kickers)
    else Score(HighCard, f.sortedRanks)
  }

  /** The number of tiebreakers each category carries. */
  function TiebreakerLength(category: int): nat {
    if category == RoyalFlush then 0
    else if category == StraightFlush || category == Straight then 1
    else if category == FourOfAKind || category == FullHouse then 2
    else if category == TwoPair || category == ThreeOfAKind then 3
    else if category == OnePair then 4
    else 5
  }

  /** A category of the ten with the number of tiebreakers it carries. */
  predicate WellShaped(s: Score) {
    1 <= s.category <= 10 && |s.tiebreakers| == TiebreakerLength(s.category)
  }

  /** Every classification is one of the ten categories with the number of
      tiebreakers that category carries. */
  lemma ClassifyShape(f: Features)
    requires Consistent(f)
    ensures WellShaped(Classify(f))
  {
  }

  /** `evaluate_hand(cards)`, with the straight's tiebreaker taken as the
      first of `sorted_ranks`: 5 for the wheel, the top value otherwise. */
  function Evaluate(cards: seq<Card>): (r: Result<Score, EvalError>)
    ensures r.Ok? <==> |cards| == 5 && AllValid(cards) && Distinct(cards)
    ensures |cards| != 5 ==> r == Err(WrongCardCount)
    ensures |cards| == 5 && !AllValid(cards) ==> r == Err(InvalidCard)
    ensures |cards| == 5 && AllValid(cards) && !Distinct(cards) ==> r == Err(DuplicateCard)
    ensures r.Ok? ==> WellShaped(r.value)
  {
    if |cards| != 5 then Err(WrongCardCount)
    else if !AllValid(cards) then Err(InvalidCard)
    else if !Distinct(cards) then Err(DuplicateCard)
    else
      var f := FeaturesOf(cards);
      ClassifyShape(f);
      Ok(Classify(f))
  }

  /** `evaluate_hand(cards)` as written: the straight's tiebreaker is
      `max(sorted_ranks)`, which is 14 for the wheel. */
  function EvaluateAsWritten(cards: seq<Card>): (r: Result<Score, EvalError>)
    ensures r.Ok? <==> Evaluate(cards).Ok?
    ensures r.Ok? ==> WellShaped(r.value)
  {
    if |cards| != 5 then Err(WrongCardCount)
    else if !AllValid(cards) then Err(InvalidCard)
    else if !Distinct(cards) then Err(DuplicateCard)
    else
      var f := FeaturesOf(cards).(straightHigh := Max(FeaturesOf(cards).sortedRanks));
      ClassifyShape(f);
      Ok(Classify(f))
  }
}
