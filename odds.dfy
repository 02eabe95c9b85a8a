/** The two odds engines of poker_odds.py: input validation and the
    sampling loop of `calculate_odds` (poker_odds.py:108-189) and the
    exhaustive loop of `precise_calculate_odds` (poker_odds.py:208-274),
    both counting wins and ties as integers. */
module Odds {
  import opened Sequences
  import opened Cards
  import opened Scores
  import opened Combinatorics
  import opened HandEvaluation
  import opened HandFacts
  import opened BestHand
  import opened Results

  datatype Outcome = Win | Tie | Loss

  // ---------------------------------------------------------------------
  // One showdown

  /** `max_opp_score = max(opponent_scores)`, then a win if your score is
      greater, a tie if equal, a loss otherwise. */
  function TrialOutcome(yours: Score, opponents: seq<Score>): Outcome
    requires |opponents| > 0
  {
    var best := MaxScore(opponents);
    if Less(best, yours) then Win else if yours == best then Tie else Loss
  }

  /** A win means beating every opponent, a tie means that no opponent is
      better and one is equal, and a loss means that some opponent is
      better. */
  lemma TrialOutcomeMeaning(yours: Score, opponents: seq<Score>)
    requires |opponents| > 0
    ensures TrialOutcome(yours, opponents) == Win <==>
      forall i :: 0 <= i < |opponents| ==> Less(opponents[i], yours)
    ensures TrialOutcome(yours, opponents) == Tie <==>
      (forall i :: 0 <= i < |opponents| ==> !Less(yours, opponents[i])) && yours in opponents
    ensures TrialOutcome(yours, opponents) == Loss <==>
      exists i :: 0 <= i < |opponents| && Less(yours, opponents[i])
  {
    var best := MaxScore(opponents);
    MaxScoreCompare(opponents, yours);
    LessIsStrictTotalOrder(yours, best, yours);
    LessIsStrictTotalOrder(best, yours, best);
    assert forall x :: x in opponents <==> exists i :: 0 <= i < |opponents| && opponents[i] == x;
  }

  /** `[rank for rank, _ in opponent_ranks]` */
  function Categories(scores: seq<Score>): (r: seq<int>)
    ensures |r| == |scores|
    ensures forall i :: 0 <= i < |scores| ==> r[i] == scores[i].category
  {
    seq(|scores|, i requires 0 <= i < |scores| => scores[i].category)
  }

  /** The comparison of `calculate_odds`: categories first against the best
      opponent category, the whole score only when the categories are
      equal. */
  function TrialOutcomeRankFirst(yours: Score, opponents: seq<Score>): Outcome
    requires |opponents| > 0
  {
    var maxRank := Max(Categories(opponents));
    if yours.category > maxRank then Win
    else if yours.category < maxRank then Loss
    else
      var best := MaxScore(opponents);
      if Less(best, yours) then Win else if yours == best then Tie else Loss
  }

  /** Comparing categories first gives the same outcome as comparing whole
      scores. */
  lemma RankFirstAgrees(yours: Score, opponents: seq<Score>)
    requires |opponents| > 0
    ensures TrialOutcomeRankFirst(yours, opponents) == TrialOutcome(yours, opponents)
  {
    var best := MaxScore(opponents);
    var cats := Categories(opponents);
    assert Max(cats) == best.category by {
      var i :| 0 <= i < |opponents| && opponents[i] == best;
      assert cats[i] == best.category && cats[i] in cats;
      var k :| 0 <= k < |cats| && cats[k] == Max(cats);
      assert opponents[k] in opponents;
      assert !Less(best, opponents[k]);
    }
    LessIsStrictTotalOrder(yours, best, yours);
  }

  // ---------------------------------------------------------------------
  // The cards of a deal

  /** `[card for opp_hand in opponent_hands for card in opp_hand]` */
  function Flatten(hands: seq<seq<Card>>): seq<Card> {
    if hands == [] then [] else hands[0] + Flatten(hands[1..])
  }

  /** Each hand's cards are among the flattened cards, and a hand repeats
      none when the flattened cards repeat none. */
  lemma {:induction false} FlattenHolds(hands: seq<seq<Card>>, i: nat)
    requires i < |hands|
    ensures forall c :: c in hands[i] ==> c in Flatten(hands)
    ensures Distinct(Flatten(hands)) ==> Distinct(hands[i])
  {
    DistinctConcat(hands[0], Flatten(hands[1..]));
    if i > 0 {
      FlattenHolds(hands[1..], i - 1);
    }
  }

  /** Every card of the flattened hands belongs to one of them. */
  lemma {:induction false} FlattenMembers(hands: seq<seq<Card>>, c: Card)
    requires c in Flatten(hands)
    ensures exists i :: 0 <= i < |hands| && c in hands[i]
  {
    if c !in hands[0] {
      FlattenMembers(hands[1..], c);
      var i :| 0 <= i < |hands| - 1 && c in hands[1..][i];
      assert c in hands[i + 1];
    }
  }

  /** `known_cards`: your hole cards, the opponents' hole cards and the known
      community cards. */
  function KnownCards(yours: seq<Card>, opponents: seq<seq<Card>>, board: seq<Card>): seq<Card> {
    yours + Flatten(opponents) + board
  }

  /** A complete deal: at least one opponent, five community cards, and all
      cards valid and different. */
  predicate ValidDeal(yours: seq<Card>, opponents: seq<seq<Card>>, community: seq<Card>) {
    && |opponents| >= 1
    && |community| == 5
    && AllValid(KnownCards(yours, opponents, community))
    && Distinct(KnownCards(yours, opponents, community))
  }

  /** In a complete deal every player holds at least five different valid
      cards together with the community cards. */
  lemma DealHoldings(yours: seq<Card>, opponents: seq<seq<Card>>, community: seq<Card>)
    requires ValidDeal(yours, opponents, community)
    ensures Holding(yours + community)
    ensures forall i :: 0 <= i < |opponents| ==> Holding(opponents[i] + community)
  {
    var f := Flatten(opponents);
    DistinctConcat(yours + f, community);
    DistinctConcat(yours, f);
    DistinctConcat(yours, community);
    forall i | 0 <= i < |opponents| ensures Holding(opponents[i] + community) {
      FlattenHolds(opponents, i);
      DistinctConcat(opponents[i], community);
    }
  }

  /** The opponents' best scores, in order. */
  function OpponentScores(opponents: seq<seq<Card>>, community: seq<Card>): (r: seq<Score>)
    requires forall i :: 0 <= i < |opponents| ==> Holding(opponents[i] + community)
    ensures |r| == |opponents|
    ensures forall i :: 0 <= i < |opponents| ==> r[i] == BestScore(opponents[i] + community)
  {
    seq(|opponents|, i requires 0 <= i < |opponents| => BestScore(opponents[i] + community))
  }

  /** The outcome of a complete deal for you. */
  function Showdown(yours: seq<Card>, opponents: seq<seq<Card>>, community: seq<Card>): Outcome
    requires ValidDeal(yours, opponents, community)
  {
    DealHoldings(yours, opponents, community);
    TrialOutcome(BestScore(yours + community), OpponentScores(opponents, community))
  }

  /** You win a deal when your best hand beats every opponent's best hand,
      tie when none beats yours and one equals it, and lose when one beats
      yours. */
  lemma ShowdownMeaning(yours: seq<Card>, opponents: seq<seq<Card>>, community: seq<Card>)
    requires ValidDeal(yours, opponents, community)
    ensures Holding(yours + community)
    ensures forall i :: 0 <= i < |opponents| ==> Holding(opponents[i] + community)
    ensures Showdown(yours, opponents, community) == Win <==>
      forall i :: 0 <= i < |opponents| ==> Less(BestScore(opponents[i] + community), BestScore(yours + community))
    ensures Showdown(yours, opponents, community) == Loss <==>
      exists i :: 0 <= i < |opponents| && Less(BestScore(yours + community), BestScore(opponents[i] + community))
  {
    DealHoldings(yours, opponents, community);
    var mine, theirs := BestScore(yours + community), OpponentScores(opponents, community);
    assert Showdown(yours, opponents, community) == TrialOutcome(mine, theirs);
    TrialOutcomeMeaning(mine, theirs);
  }

  // ---------------------------------------------------------------------
  // Counting

  /** The number of completions of the board for which the deal ends in
      outcome `o`. */
  function Count(yours: seq<Card>, opponents: seq<seq<Card>>, board: seq<Card>,
                 completions: seq<seq<Card>>, o: Outcome): (n: nat)
    requires forall r :: r in completions ==> ValidDeal(yours, opponents, board + r)
    ensures n <= |completions|
  {
    if completions == [] then 0
    else
      var k := |completions| - 1;
      assert forall r :: r in completions[..k] ==> r in completions;
      Count(yours, opponents, board, completions[..k], o)
        + (if Showdown(yours, opponents, board + completions[k]) == o then 1 else 0)
  }

  /** Counting one more completion adds one exactly when its deal ends in
      the outcome counted. */
  lemma CountStep(yours: seq<Card>, opponents: seq<seq<Card>>, board: seq<Card>,
                  completions: seq<seq<Card>>, i: nat, o: Outcome)
    requires forall r :: r in completions ==> ValidDeal(yours, opponents, board + r)
    requires i < |completions|
    ensures forall r :: r in completions[..i] ==> r in completions
    ensures forall r :: r in completions[..i + 1] ==> r in completions
    ensures Count(yours, opponents, board, completions[..i + 1], o)
         == Count(yours, opponents, board, completions[..i], o)
          + (if Showdown(yours, opponents, board + completions[i]) == o then 1 else 0)
  {
    assert completions[..i + 1][..i] == completions[..i];
    assert completions[..i + 1][i] == completions[i];
  }

  /** Every completion is counted as exactly one of win, tie and loss. */
  lemma {:induction false} CountsPartition(yours: seq<Card>, opponents: seq<seq<Card>>, board: seq<Card>,
                                            completions: seq<seq<Card>>)
    requires forall r :: r in completions ==> ValidDeal(yours, opponents, board + r)
    ensures Count(yours, opponents, board, completions, Win)
          + Count(yours, opponents, board, completions, Tie)
          + Count(yours, opponents, board, completions, Loss) == |completions|
  {
    if completions != [] {
      var k := |completions| - 1;
      assert forall r :: r in completions[..k] ==> r in completions;
      CountsPartition(yours, opponents, board, completions[..k]);
    }
  }

  /** The cards known before the board is completed: at least one opponent,
      at most five community cards, all valid and different. */
  predicate KnownDeal(yours: seq<Card>, opponents: seq<seq<Card>>, board: seq<Card>) {
    && |opponents| >= 1
    && |board| <= 5
    && AllValid(KnownCards(yours, opponents, board))
    && Distinct(KnownCards(yours, opponents, board))
  }

  /** `num_community_needed`: the community cards still to be dealt. */
  function NeededCards(board: seq<Card>): nat
    requires |board| <= 5
  {
    5 - |board|
  }

  /** `deck`: the cards of a fresh deck that are not known. */
  function RemainingDeck(yours: seq<Card>, opponents: seq<seq<Card>>, board: seq<Card>): seq<Card> {
    Residual(CreateDeck(), KnownCards(yours, opponents, board))
  }

  /** The remaining deck holds every card that is neither known nor invalid,
      once, and 52 minus the number of known cards. */
  lemma RemainingDeckFacts(yours: seq<Card>, opponents: seq<seq<Card>>, board: seq<Card>)
    requires KnownDeal(yours, opponents, board)
    ensures var deck, known := RemainingDeck(yours, opponents, board), KnownCards(yours, opponents, board);
      && Distinct(deck)
      && |deck| == 52 - |known|
      && (forall c :: c in deck <==> Unseen(yours, opponents, board, c))
  {
    DeckDistinct();
    ResidualSize(KnownCards(yours, opponents, board));
    forall c {
      DeckComplete(c);
    }
  }

  /** Cards that may still be dealt: valid and not known. */
  predicate Unseen(yours: seq<Card>, opponents: seq<seq<Card>>, board: seq<Card>, c: Card) {
    ValidCard(c) && c !in KnownCards(yours, opponents, board)
  }

  /** Different valid cards none of which is known, added to different
      valid known cards, leave all cards valid and different. */
  lemma ExtendKnown(known: seq<Card>, rest: seq<Card>)
    requires AllValid(known) && Distinct(known) && Distinct(rest)
    requires forall c :: c in rest ==> ValidCard(c) && c !in known
    ensures AllValid(known + rest) && Distinct(known + rest)
  {
    DistinctConcat(known, rest);
  }

  /** Adding community cards to the board adds them to the known cards. */
  lemma KnownCardsGrow(yours: seq<Card>, opponents: seq<seq<Card>>, board: seq<Card>, rest: seq<Card>)
    ensures KnownCards(yours, opponents, board + rest) == KnownCards(yours, opponents, board) + rest
  {
  }

  /** Different unseen cards, as many as the board lacks, complete the
      deal. */
  lemma CompletionIsDeal(yours: seq<Card>, opponents: seq<seq<Card>>, board: seq<Card>, rest: seq<Card>)
    requires KnownDeal(yours, opponents, board)
    requires |rest| == NeededCards(board) && Distinct(rest)
    requires forall c :: c in rest ==> Unseen(yours, opponents, board, c)
    ensures ValidDeal(yours, opponents, board + rest)
  {
    KnownCardsGrow(yours, opponents, board, rest);
    ExtendKnown(KnownCards(yours, opponents, board), rest);
  }

  /** Every selection of as many cards as the board lacks from a deck of
      different unseen cards completes the deal. */
  lemma CombinationsAreDeals(yours: seq<Card>, opponents: seq<seq<Card>>, board: seq<Card>, deck: seq<Card>)
    requires KnownDeal(yours, opponents, board)
    requires Distinct(deck) && forall c :: c in deck ==> Unseen(yours, opponents, board, c)
    ensures forall r :: r in Combinations(deck, NeededCards(board)) ==> ValidDeal(yours, opponents, board + r)
  {
    SelectionsFacts(deck, NeededCards(board));
    forall r | r in Combinations(deck, NeededCards(board)) ensures ValidDeal(yours, opponents, board + r) {
      CompletionIsDeal(yours, opponents, board, r);
    }
  }

  // ---------------------------------------------------------------------
  // The exhaustive engine

  /** `opponent_scores`: each opponent's best score, one opponent at a
      time. */
  method ScoreOpponents(opponents: seq<seq<Card>>, community: seq<Card>) returns (scores: seq<Score>)
    requires forall i :: 0 <= i < |opponents| ==> Holding(opponents[i] + community)
    ensures scores == OpponentScores(opponents, community)
  {
    ghost var all := OpponentScores(opponents, community);
    scores := [];
    for j := 0 to |opponents|
      invariant scores == all[..j]
    {
      scores := scores + [BestScore(opponents[j] + community)];
    }
  }

  /** The loop of `precise_calculate_odds` over the completions of the
      board: one showdown each, counting the wins and the ties. */
  method PlayCompletions(yours: seq<Card>, opponents: seq<seq<Card>>, board: seq<Card>,
                         completions: seq<seq<Card>>)
    returns (wins: nat, ties: nat)
    requires forall r :: r in completions ==> ValidDeal(yours, opponents, board + r)
    ensures wins == Count(yours, opponents, board, completions, Win)
    ensures ties == Count(yours, opponents, board, completions, Tie)
  {
    wins, ties := 0, 0;
    for i := 0 to |completions|
      invariant wins == Count(yours, opponents, board, completions[..i], Win)
      invariant ties == Count(yours, opponents, board, completions[..i], Tie)
    {
      assert completions[i] in completions;
      var community := board + completions[i];
      CountStep(yours, opponents, board, completions, i, Win);
      CountStep(yours, opponents, board, completions, i, Tie);
      DealHoldings(yours, opponents, community);
      var yourScore := BestScore(yours + community);
      var opponentScores := ScoreOpponents(opponents, community);
      assert Showdown(yours, opponents, community) == TrialOutcome(yourScore, opponentScores);
      var maxOpponentScore := MaxScore(opponentScores);
      if Less(maxOpponentScore, yourScore) {
        wins := wins + 1;
      } else if yourScore == maxOpponentScore {
        ties := ties + 1;
      }
    }
    assert completions[..|completions|] == completions;
  }

  /** `precise_calculate_odds`: every combination of the remaining deck that
      completes the board is dealt once; `wins` and `ties` count the deals
      you win and tie and `losses = total - wins - ties`. */
  method PreciseCalculateOdds(yours: seq<Card>, opponents: seq<seq<Card>>, board: seq<Card>)
    returns (wins: nat, ties: nat, losses: nat, total: nat)
    requires KnownDeal(yours, opponents, board)
    ensures var deck := RemainingDeck(yours, opponents, board);
      var completions := Combinations(deck, NeededCards(board));
      && |deck| + |KnownCards(yours, opponents, board)| == 52
      && total == |completions| == Choose(|deck|, NeededCards(board))
      && (forall r :: r in completions ==> ValidDeal(yours, opponents, board + r))
      && wins == Count(yours, opponents, board, completions, Win)
      && ties == Count(yours, opponents, board, completions, Tie)
      && losses == Count(yours, opponents, board, completions, Loss)
      && wins + ties + losses == total
  {
    var deck := RemainingDeck(yours, opponents, board);
    var needed := NeededCards(board);
    var completions := Combinations(deck, needed);
    RemainingDeckFacts(yours, opponents, board);
    CombinationsCount(deck, needed);
    CombinationsAreDeals(yours, opponents, board, deck);
    total := |completions|;
    wins, ties := PlayCompletions(yours, opponents, board, completions);
    CountsPartition(yours, opponents, board, completions);
    losses := total - wins - ties;
  }

  // ---------------------------------------------------------------------
  // Validation and the sampling engine

  /** The `ValueError`s `calculate_odds` raises before simulating, in the
      order it checks for them. */
  datatype OddsError =
    | YourHandSize
    | OpponentHandSize
    | InvalidYourCard
    | InvalidOpponentCard
    | TooManyCommunityCards
    | InvalidCommunityCard

  /** The input checks of `calculate_odds`, with every suit checked against
      the four suit tokens. */
  function Validate(yours: seq<Card>, opponents: seq<seq<Card>>, board: seq<Card>): (r: Result<(), OddsError>)
    ensures r.Ok? <==>
      && |yours| == 2
      && (forall i :: 0 <= i < |opponents| ==> |opponents[i]| == 2)
      && AllValid(KnownCards(yours, opponents, board))
      && |board| <= 5
    ensures r == Err(YourHandSize) <==> |yours| != 2
    ensures r == Err(TooManyCommunityCards) ==> |board| > 5
  {
    ValidCardsOfDeal(yours, opponents, board);
    if |yours| != 2 then Err(YourHandSize)
    else if exists i :: 0 <= i < |opponents| && |opponents[i]| != 2 then Err(OpponentHandSize)
    else if !AllValid(yours) then Err(InvalidYourCard)
    else if exists i :: 0 <= i < |opponents| && !AllValid(opponents[i]) then Err(InvalidOpponentCard)
    else if |board| > 5 then Err(TooManyCommunityCards)
    else if !AllValid(board) then Err(InvalidCommunityCard)
    else Ok(())
  }

  /** All known cards are valid exactly when your cards, every opponent's
      cards and the board are. */
  lemma ValidCardsOfDeal(yours: seq<Card>, opponents: seq<seq<Card>>, board: seq<Card>)
    ensures AllValid(KnownCards(yours, opponents, board)) <==>
      AllValid(yours) && (forall i :: 0 <= i < |opponents| ==> AllValid(opponents[i])) && AllValid(board)
  {
    var f := Flatten(opponents);
    forall i | 0 <= i < |opponents| {
      FlattenHolds(opponents, i);
    }
    forall c | c in f ensures exists i :: 0 <= i < |opponents| && c in opponents[i] {
      FlattenMembers(opponents, c);
    }
  }

  /** `card.suit in 'HDCS'` as Python evaluates it on strings: substring
      containment. */
  predicate SubstringOf(s: string, t: string) {
    exists i, j :: 0 <= i <= j <= |t| && t[i..j] == s
  }

  /** The check applied to your own cards as written. */
  predicate ValidCardAsWritten(c: Card) {
    c.rank in Ranks && SubstringOf(c.suit, "HDCS")
  }

  /** The input checks of `calculate_odds` as written: your cards' suits are
      checked by substring against `'HDCS'`. */
  function ValidateAsWritten(yours: seq<Card>, opponents: seq<seq<Card>>, board: seq<Card>): (r: Result<(), OddsError>)
    ensures Validate(yours, opponents, board).Ok? ==> r.Ok?
    ensures r == Err(YourHandSize) <==> |yours| != 2
  {
    SuitTokensAreSubstrings(yours);
    if |yours| != 2 then Err(YourHandSize)
    else if exists i :: 0 <= i < |opponents| && |opponents[i]| != 2 then Err(OpponentHandSize)
    else if !(forall c :: c in yours ==> ValidCardAsWritten(c)) then Err(InvalidYourCard)
    else if exists i :: 0 <= i < |opponents| && !AllValid(opponents[i]) then Err(InvalidOpponentCard)
    else if |board| > 5 then Err(TooManyCommunityCards)
    else if !AllValid(board) then Err(InvalidCommunityCard)
    else Ok(())
  }

  /** Each suit token is a substring of `'HDCS'`. */
  lemma SuitTokensAreSubstrings(cards: seq<Card>)
    ensures forall c :: c in cards && ValidCard(c) ==> ValidCardAsWritten(c)
  {
    forall c | c in cards && ValidCard(c) ensures ValidCardAsWritten(c) {
      var t := "HDCS";
      var i :| 0 <= i < 4 && Suits[i] == c.suit;
      assert t[i..i + 1] == c.suit;
    }
  }

  /** A one-letter substring of `'HDCS'` is a suit token. */
  lemma OneLetterSubstrings(s: string)
    requires |s| == 1 && SubstringOf(s, "HDCS")
    ensures s in Suits
  {
    var t := "HDCS";
    var i, j :| 0 <= i <= j <= |t| && t[i..j] == s;
    assert s == [t[i]];
  }

  /** When every suit of your hand is one letter, the check as written and
      the intended check agree. */
  lemma ValidateAgreesOnOneLetterSuits(yours: seq<Card>, opponents: seq<seq<Card>>, board: seq<Card>)
    requires forall c :: c in yours ==> |c.suit| == 1
    ensures ValidateAsWritten(yours, opponents, board) == Validate(yours, opponents, board)
  {
    SuitTokensAreSubstrings(yours);
    forall c | c in yours && ValidCardAsWritten(c) ensures ValidCard(c) {
      OneLetterSubstrings(c.suit);
    }
  }

  /** Your hand `A` of suit `"HD"` and `K` of spades against `2C 3C`: the
      check as written accepts it, the intended check rejects it. */
  lemma TwoLetterSuitAccepted()
    ensures var yours, opponents := [Card("A", "HD"), Card("K", "S")], [[Card("2", "C"), Card("3", "C")]];
      && ValidateAsWritten(yours, opponents, []) == Ok(())
      && Validate(yours, opponents, []) == Err(InvalidYourCard)
  {
    var yours, opponents := [Card("A", "HD"), Card("K", "S")], [[Card("2", "C"), Card("3", "C")]];
    var t := "HDCS";
    assert t[0..2] == "HD";
    assert t[3..4] == "S";
    assert ValidCardAsWritten(yours[0]) && ValidCardAsWritten(yours[1]);
    assert !ValidCard(yours[0]);
    assert AllValid(opponents[0]);
  }

  /** The wins and ties a simulation counts. */
  datatype Tally = Tally(wins: nat, ties: nat)

  /** `calculate_odds` on validated input, with the cards each trial draws
      from the shuffled deck given as `draws`: each trial completes the board
      with its draw, compares categories first, and counts a win or a tie. */
  method CalculateOdds(yours: seq<Card>, opponents: seq<seq<Card>>, board: seq<Card>, draws: seq<seq<Card>>)
    returns (r: Result<Tally, OddsError>)
    requires |opponents| >= 1 && Distinct(KnownCards(yours, opponents, board))
    requires |board| <= 5 ==> forall d :: d in draws ==>
      |d| == NeededCards(board) && Distinct(d) && forall c :: c in d ==> Unseen(yours, opponents, board, c)
    ensures Validate(yours, opponents, board).Err? ==> r == Err(Validate(yours, opponents, board).error)
    ensures Validate(yours, opponents, board).Ok? ==> forall d :: d in draws ==> ValidDeal(yours, opponents, board + d)
    ensures Validate(yours, opponents, board).Ok? ==>
      && r.Ok?
      && r.value.wins == Count(yours, opponents, board, draws, Win)
      && r.value.ties == Count(yours, opponents, board, draws, Tie)
  {
    var checked := Validate(yours, opponents, board);
    if checked.Err? {
      return Err(checked.error);
    }
    forall d | d in draws ensures ValidDeal(yours, opponents, board + d) {
      CompletionIsDeal(yours, opponents, board, d);
    }
    var wins, ties := PlayDraws(yours, opponents, board, draws);
    return Ok(Tally(wins, ties));
  }

  /** The simulation loop of `calculate_odds`: one showdown per draw,
      comparing categories before whole scores. */
  method PlayDraws(yours: seq<Card>, opponents: seq<seq<Card>>, board: seq<Card>, draws: seq<seq<Card>>)
    returns (wins: nat, ties: nat)
    requires forall d :: d in draws ==> ValidDeal(yours, opponents, board + d)
    ensures wins == Count(yours, opponents, board, draws, Win)
    ensures ties == Count(yours, opponents, board, draws, Tie)
  {
    wins, ties := 0, 0;
    for i := 0 to |draws|
      invariant wins == Count(yours, opponents, board, draws[..i], Win)
      invariant ties == Count(yours, opponents, board, draws[..i], Tie)
    {
      assert draws[i] in draws;
      var community := board + draws[i];
      CountStep(yours, opponents, board, draws, i, Win);
      CountStep(yours, opponents, board, draws, i, Tie);
      DealHoldings(yours, opponents, community);
      var yourScore := BestScore(yours + community);
      var opponentRanks := ScoreOpponents(opponents, community);
      assert Showdown(yours, opponents, community) == TrialOutcome(yourScore, opponentRanks);
      RankFirstAgrees(yourScore, opponentRanks);
      var maxOpponentRank := Max(Categories(opponentRanks));
      if yourScore.category > maxOpponentRank {
        wins := wins + 1;
      } else if yourScore.category < maxOpponentRank {
        continue;
      } else {
        var maxOpponentScore := MaxScore(opponentRanks);
        if Less(maxOpponentScore, yourScore) {
          wins := wins + 1;
        } else if yourScore == maxOpponentScore {
          ties := ties + 1;
        }
      }
    }
    assert draws[..|draws|] == draws;
  }
}
