/** The best five-card hand among hole and community cards:
    `max(combinations(hole + community, 5), key=evaluate_hand)` and its
    evaluation (poker_odds.py:164-166, poker_odds.py:247-249,
    poker_odds.py:252-254). */
module BestHand {
  import opened Sequences
  import opened Cards
  import opened Scores
  import opened Combinatorics
  import opened HandEvaluation
  import opened HandFacts

  /** The scores of the hands, in order. */
  function ScoresOf(hands: seq<seq<Card>>): (r: seq<Score>)
    requires forall h :: h in hands ==> Playable(h)
    ensures |r| == |hands|
    ensures forall i :: 0 <= i < |hands| ==> r[i] == ScoreOf(hands[i])
  {
    seq(|hands|, i requires 0 <= i < |hands| => ScoreOf(hands[i]))
  }

  /** `max(hands, key=evaluate_hand)`: the hand at the position `ArgMax`
      picks among the scores. */
  function MaxByScore(hands: seq<seq<Card>>): (best: seq<Card>)
    requires |hands| > 0
    requires forall h :: h in hands ==> Playable(h)
    ensures best in hands
  {
    hands[ArgMax(ScoresOf(hands))]
  }

  /** `max` with a key returns the first hand whose score no other hand
      exceeds: no hand scores higher, and every hand before it scores
      lower. */
  lemma MaxByScoreIsFirstMaximum(hands: seq<seq<Card>>)
    requires |hands| > 0
    requires forall h :: h in hands ==> Playable(h)
    ensures forall h :: h in hands ==> !Less(ScoreOf(MaxByScore(hands)), ScoreOf(h))
    ensures exists i :: 0 <= i < |hands| && hands[i] == MaxByScore(hands) &&
                        (forall j :: 0 <= j < i ==> Less(ScoreOf(hands[j]), ScoreOf(MaxByScore(hands))))
  {
    var scores := ScoresOf(hands);
    ArgMaxIsFirstMaximum(scores);
    var i := ArgMax(scores);
    assert hands[i] == MaxByScore(hands);
    forall h | h in hands ensures !Less(scores[i], ScoreOf(h)) {
      var j :| 0 <= j < |hands| && hands[j] == h;
      assert scores[j] == ScoreOf(h);
    }
    assert forall j :: 0 <= j < i ==> Less(scores[j], scores[i]);
  }

  /** Cards a player may make a hand from: at least five valid cards, none
      repeated. */
  predicate Holding(cards: seq<Card>) {
    |cards| >= 5 && AllValid(cards) && Distinct(cards)
  }

  /** There is at least one way to choose `k` of `n` when `k <= n`. */
  lemma {:induction false} ChoosePositive(n: nat, k: nat)
    requires k <= n
    ensures Choose(n, k) >= 1
  {
    if k > 0 {
      ChoosePositive(n - 1, k - 1);
    }
  }

  /** Every five-card selection of a holding is a playable hand, and there
      is at least one. */
  lemma HandsArePlayable(cards: seq<Card>)
    requires Holding(cards)
    ensures |Combinations(cards, 5)| >= 1
    ensures forall h :: h in Combinations(cards, 5) ==> Playable(h)
  {
    CombinationsCount(cards, 5);
    ChoosePositive(|cards|, 5);
    forall h | h in Combinations(cards, 5) ensures Playable(h) {
      CombinationMembers(cards, 5, h);
      CombinationDistinct(cards, 5, h);
    }
  }

  /** The hand `max(combinations(cards, 5), key=evaluate_hand)` selects: one
      of the five-card selections (`BestScoreIsMaximum` shows that none
      outscores it). */
  function Best(cards: seq<Card>): (best: seq<Card>)
    requires Holding(cards)
    ensures best in Combinations(cards, 5)
  {
    HandsArePlayable(cards);
    MaxByScore(Combinations(cards, 5))
  }

  /** `evaluate_hand(your_best_hand)`: the score of the best hand. */
  function BestScore(cards: seq<Card>): (s: Score)
    requires Holding(cards)
    ensures WellShaped(s)
  {
    HandsArePlayable(cards);
    ScoreOf(Best(cards))
  }

  /** The best score is at least the score of every choice of five cards,
      named by five increasing positions, and equals the score of one of
      them. */
  lemma BestScoreIsMaximum(cards: seq<Card>, idx: seq<nat>)
    requires Holding(cards) && |idx| == 5 && Increasing(idx, |cards|)
    ensures Playable(Pick(cards, idx))
    ensures !Less(BestScore(cards), ScoreOf(Pick(cards, idx)))
    ensures exists h :: h in Combinations(cards, 5) && Playable(h) && BestScore(cards) == ScoreOf(h)
  {
    CombinationsComplete(cards, idx);
    HandsArePlayable(cards);
    MaxByScoreIsFirstMaximum(Combinations(cards, 5));
  }
}
