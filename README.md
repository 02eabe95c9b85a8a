# Poker hand ranking and odds, modelled in Dafny

This project models the core of `poker_odds.py`, a Texas Hold'em odds
calculator. The core has four parts:

- **Cards and the deck.** A card is a rank and a suit. Equality is equality of
  both. The deck is 13 ranks times 4 suits in rank-major order.
  `duplicate_card` reports a card that occurs twice.
- **`evaluate_hand`.** It scores exactly five cards as a pair
  `(category, tiebreakers)`. The categories run from high card (1) to royal
  flush (10). Scores are compared the way Python compares such tuples:
  category first, then the tiebreaker lists lexicographically.
- **Best hand.** A player's best hand is
  `max(combinations(hole + community, 5), key=evaluate_hand)`.
- **Two odds engines.**
  - `precise_calculate_odds` deals every completion of the board from the
    remaining deck and counts wins, ties and losses.
  - `calculate_odds` first validates its input. It then runs one trial per
    random draw and compares categories before whole scores.

The modules follow the program's structure:

| file | module | what it holds |
|---|---|---|
| `cards.dfy` | `Cards` | cards, rank values, the deck, the deck minus the known cards, `duplicate_card` |
| `grouping.dfy` | `Grouping` | `Counter(ranks)` and its items ordered by count, then value |
| `evaluation.dfy` | `HandEvaluation` | `evaluate_hand`, with the features it computes and its classification |
| `hand_facts.dfy` | `HandFacts` | the rules of poker as an independent reference; proofs that the evaluator follows them |
| `scores.dfy` | `Scores` | the tuple order on scores, `max` over scores |
| `combinations.dfy` | `Combinatorics` | `itertools.combinations`: its count, its members, completeness, no repeats |
| `best_hand.dfy` | `BestHand` | `max(..., key=evaluate_hand)` and the best hand of a holding |
| `odds.dfy` | `Odds` | one showdown, win/tie/loss counting, both engines, input validation |
| `sequences.dfy`, `results.dfy` | `Sequences`, `Results` | shared sequence helpers and a `Result` type |

The two odds engines are imperative loops in the source. They are modelled as
methods with loops. Each method is proved equal to a specification function:
- `Count` counts the completions with a given outcome.
- `Showdown` is the outcome of one deal.

The properties of poker are proved about those functions.

## Model

| member | source | states |
|---|---|---|
| Cards.Value | poker_odds.py:5-6 | a valid rank's value lies in 2..14 and is 2 plus the rank's position in the rank list |
| Cards.DeckComplete | poker_odds.py:33-36 | a card is in the created deck exactly when its rank and suit are valid |
| Cards.DeckDistinct | poker_odds.py:33-36 | the created deck has no card twice (with `CreateDeck`'s own contract: 52 cards) |
| Cards.Residual | poker_odds.py:232 | the deck filtered by the known cards holds exactly the deck's cards that are not known, and has no repeats if the deck has none |
| Cards.ResidualSize | poker_odds.py:140-147 | removing distinct valid known cards from the full deck leaves 52 minus their number |
| Cards.CreateDeck | poker_odds.py:33-36 | the deck has 52 cards; `Cards.DeckComplete` and `Cards.DeckDistinct` give its contents |
| Cards.DuplicateCard | poker_odds.py:51-58 | the scan with a seen set reports a duplicate exactly when some card occurs twice |
| Sequences.Max | poker_odds.py:75 | `max` is an element no smaller than any other |
| Sequences.Min | poker_odds.py:75 | `min` is an element no larger than any other |
| Sequences.SortDesc | poker_odds.py:76 | `sorted(..., reverse=True)` is descending and a permutation of its input |
| Sequences.DescendingUnique | poker_odds.py:76 | only one descending arrangement of a multiset exists, so the sort is determined by its contents |
| Sequences.DescendingHeadIsMax | poker_odds.py:87 | the first of the descending ranks is their maximum |
| Sequences.SortPair | poker_odds.py:100 | sorting two pair values highest first puts the larger in front |
| Sequences.Without | poker_odds.py:97 | the values other than `v` are the input's values with every `v` removed |
| Grouping.Groups | poker_odds.py:72-82 | `sorted(Counter(ranks).items(), key=...)`; its meaning is in `Grouping.GroupOf`, `Grouping.GroupIsPresent` and `Grouping.GroupsOrdered` |
| Grouping.GroupsOrdered | poker_odds.py:82 | the counter items are ordered by count descending, then value descending |
| Grouping.GroupOf | poker_odds.py:72 | every value present in the hand appears as an item with its multiplicity |
| Grouping.GroupIsPresent | poker_odds.py:72 | every item is a present value paired with its multiplicity |
| Grouping.GroupsShape | poker_odds.py:82-100 | there is a first item, a second when the first does not cover the hand, and a third when the first two do not, so every `counts[k]` the evaluator reads exists |
| HandEvaluation.Values | poker_odds.py:70 | the ranks are mapped to values card by card, all in 2..14 |
| HandEvaluation.SuitsOf | poker_odds.py:71 | the suits are taken card by card |
| HandEvaluation.Kickers | poker_odds.py:97-102 | the kickers are the values other than the group's value, highest first, with their multiplicities |
| HandEvaluation.FeaturesOf | poker_odds.py:70-82 | the features of a valid hand have the sizes classification needs, and the counter items are those of its values |
| HandEvaluation.IsStraight | poker_odds.py:75-79 | the straight test after the wheel adjustment; `HandFacts.StraightReference` proves it means five consecutive values or the wheel |
| HandEvaluation.SortedRanks | poker_odds.py:76-80 | five values give five sorted ranks; `HandFacts.AllValuesTiebreakers` proves they are the values highest first off the wheel |
| HandEvaluation.Classify | poker_odds.py:84-105 | the category branches in the source's order; `HandEvaluation.ClassifyShape`, `HandFacts.CategoryMatchesReference` and the `HandFacts` tiebreaker lemmas state what it computes |
| HandEvaluation.ClassifyShape | poker_odds.py:84-105 | every classification is one of the ten categories with that category's number of tiebreakers |
| HandEvaluation.Evaluate | poker_odds.py:60-105 | a hand is scored exactly when it has five valid, distinct cards; otherwise the source's first failing check is the error; every score is well-shaped (corrected wheel tiebreaker; as written: `HandEvaluation.EvaluateAsWritten`) |
| HandEvaluation.EvaluateAsWritten | poker_odds.py:78-95 | the literal straight tiebreaker `max(sorted_ranks)` accepts and rejects the same hands as the corrected evaluator |
| HandFacts.ScoreOf | poker_odds.py:60-105 | a playable hand's score is well-shaped |
| HandFacts.FlushReference | poker_odds.py:74 | one distinct suit means every card has the first card's suit |
| HandFacts.StraightReference | poker_odds.py:75-79 | the straight test holds exactly when the values form five consecutive values or the wheel; off the wheel they are the run from the minimum |
| HandFacts.RoyalReference | poker_odds.py:85 | for a straight, `max == 14 and min == 10` means the values are ten to ace |
| HandFacts.CountsReference | poker_odds.py:82-101 | the first two counter items detect four of a kind, three of a kind, a full house, two pairs and one pair exactly |
| HandFacts.CategoryMatchesReference | poker_odds.py:84-105 | the evaluator's category equals the category by the rules of poker |
| HandFacts.ClassifyStraightHigh | poker_odds.py:87-95 | the straight's tiebreaker affects only the two straight categories |
| HandFacts.FourOfAKindTiebreakers | poker_odds.py:89 | four of a kind breaks ties on the quad value, then the kicker |
| HandFacts.FullHouseTiebreakers | poker_odds.py:91 | a full house breaks ties on the trips value, then the pair value |
| HandFacts.TwoPairGroups | poker_odds.py:100 | the counter items of two pair give the higher pair, the lower pair, then the kicker |
| HandFacts.TwoPairTiebreakers | poker_odds.py:100 | two pair breaks ties on the higher pair, the lower pair, then the kicker |
| HandFacts.ThreeOfAKindTiebreakers | poker_odds.py:97-98 | three of a kind breaks ties on the trips value, then the other two values highest first |
| HandFacts.OnePairTiebreakers | poker_odds.py:102-103 | one pair breaks ties on the pair value, then the other three values highest first |
| HandFacts.AllValuesTiebreakers | poker_odds.py:92-105 | a flush and a high-card hand break ties on all five values, highest first |
| HandFacts.StraightTiebreaker | poker_odds.py:78-95 | a straight breaks ties on its top card; for the wheel the model uses the corrected 5 (as written `[14]`, see `HandFacts.AsWrittenWheel`) |
| HandFacts.RunValuesOnce | poker_odds.py:75-79 | a run of five holds every value once |
| HandFacts.SuitedRunScore | poker_odds.py:84-87 | a suited run is a royal flush from ten to ace, otherwise a straight flush; the suited wheel scores the corrected `[5]` (as written `[14]`, see `HandFacts.AsWrittenWheel`) |
| HandFacts.UnsuitedRunScore | poker_odds.py:94-95 | an unsuited run scores Straight with its top card; the wheel scores the corrected 5 (as written `[14]`, see `HandFacts.AsWrittenWheel`) |
| HandFacts.WheelIsLowestStraight | poker_odds.py:78-95 | a wheel loses to every other straight of the same category |
| HandFacts.AsWrittenAgreesOffWheel | poker_odds.py:87-95 | the literal evaluator and the corrected one agree on every hand that is not the wheel |
| HandFacts.AsWrittenWheel | poker_odds.py:78-95 | as written, every wheel scores the tiebreaker `[14]` instead of `[5]` |
| HandFacts.WheelTiesBroadwayAsWritten | poker_odds.py:78-95 | as written, A-2-3-4-5 and 10-J-Q-K-A offsuit both score `(5, [14])`; corrected, they score `[5]` and `[14]` |
| Scores.SeqLess | poker_odds.py:186 | Python's `<` on tiebreaker lists; `Scores.SeqLessIrreflexive`, `Scores.SeqLessTransitive` and `Scores.SeqLessTotal` prove it is a strict total order |
| Scores.Less | poker_odds.py:262 | Python's `<` on `(category, tiebreakers)` tuples; `Scores.LessIsStrictTotalOrder` proves it is a strict total order |
| Scores.SeqLessIrreflexive | poker_odds.py:260-265 | no tiebreaker list is below itself |
| Scores.SeqLessTransitive | poker_odds.py:260-265 | the lexicographic order on tiebreaker lists is transitive |
| Scores.SeqLessTotal | poker_odds.py:260-265 | any two tiebreaker lists are equal or one is below the other |
| Scores.LessIsStrictTotalOrder | poker_odds.py:260-265 | tuple comparison of scores is a strict total order |
| Scores.MaxScore | poker_odds.py:260 | `max` over scores is one of them and no score exceeds it |
| Scores.MaxScoreCompare | poker_odds.py:260-265 | beating the maximum means beating every score; not being below it means not being below any |
| Scores.ArgMax | poker_odds.py:248 | the position `max` picks is in range; `Scores.ArgMaxIsFirstMaximum` proves it is the first maximum |
| Scores.ArgMaxIsFirstMaximum | poker_odds.py:248 | the position `max` picks holds a score none exceeds, and every earlier score is lower |
| Combinatorics.Combinations | poker_odds.py:235 | `itertools.combinations`; `Combinatorics.CombinationsCount`, `CombinationMembers`, `CombinationsComplete` and `CombinationsDiffer` state what it lists |
| Combinatorics.CombinationsCount | poker_odds.py:235-240 | there are C(n, k) selections |
| Combinatorics.CombinationMembers | poker_odds.py:247 | each selection has k elements, all from the input |
| Combinatorics.CombinationDistinct | poker_odds.py:247 | selections from distinct elements have no repeats |
| Combinatorics.SelectionsFacts | poker_odds.py:235 | every selection from distinct elements has k different elements of the input |
| Combinatorics.CombinationsComplete | poker_odds.py:247 | every choice of increasing positions is listed |
| Combinatorics.CombinationsDiffer | poker_odds.py:235 | no two listed selections hold the same elements |
| BestHand.MaxByScore | poker_odds.py:248 | `max(hands, key=evaluate_hand)` returns one of the hands |
| BestHand.MaxByScoreIsFirstMaximum | poker_odds.py:248 | no hand outscores the one `max` returns, and every hand before it scores lower |
| BestHand.HandsArePlayable | poker_odds.py:247 | a holding of at least five distinct valid cards has a five-card selection, and each one is playable |
| BestHand.Best | poker_odds.py:247-248 | the best hand is a five-card selection of the holding |
| BestHand.BestScore | poker_odds.py:249 | the best hand's score is well-shaped (scored with the corrected wheel tiebreaker) |
| BestHand.BestScoreIsMaximum | poker_odds.py:247-249 | the best score is at least the score of every five-card choice, and is the score of one of them |
| Odds.TrialOutcome | poker_odds.py:260-265 | the comparison against `max(opponent_scores)`; `Odds.TrialOutcomeMeaning` characterises each outcome |
| Odds.TrialOutcomeRankFirst | poker_odds.py:177-189 | the category-first comparison of `calculate_odds`; `Odds.RankFirstAgrees` proves it equals `Odds.TrialOutcome` |
| Odds.TrialOutcomeMeaning | poker_odds.py:260-266 | you win exactly when every opponent scores lower, tie exactly when none scores higher and one scores the same, and lose exactly when one scores higher |
| Odds.Categories | poker_odds.py:177 | the categories are read off the scores in order |
| Odds.RankFirstAgrees | poker_odds.py:177-189 | comparing categories first and whole scores on a category tie gives the same outcome as comparing whole scores |
| Odds.FlattenHolds | poker_odds.py:143 | every opponent's cards are among the flattened opponent cards, and are distinct if those are |
| Odds.FlattenMembers | poker_odds.py:143 | every flattened card belongs to some opponent |
| Odds.DealHoldings | poker_odds.py:247-256 | in a valid deal, your cards and each opponent's cards with the community cards are holdings |
| Odds.OpponentScores | poker_odds.py:253-258 | each opponent's score is the best score of their cards with the community cards |
| Odds.Showdown | poker_odds.py:246-266 | the outcome of one completed deal; `Odds.ShowdownMeaning` characterises it by the players' best scores |
| Odds.ShowdownMeaning | poker_odds.py:246-266 | a deal is won exactly when your best score beats every opponent's, and lost exactly when some opponent's beats yours |
| Odds.Count | poker_odds.py:238-265 | the number of completions with a given outcome never exceeds the number of completions |
| Odds.CountsPartition | poker_odds.py:238-268 | wins, ties and losses together count every completion once |
| Odds.RemainingDeckFacts | poker_odds.py:223-232 | the remaining deck has no repeats, holds 52 minus the known cards, and holds exactly the valid cards that are not known |
| Odds.ExtendKnown | poker_odds.py:243-244 | adding distinct unseen valid cards keeps the known cards valid and distinct |
| Odds.CompletionIsDeal | poker_odds.py:243-244 | a board completed with enough distinct unseen cards is a valid deal |
| Odds.CombinationsAreDeals | poker_odds.py:235-244 | every completion drawn from unseen cards makes a valid deal |
| Odds.ScoreOpponents | poker_odds.py:253-258 | the loop collects every opponent's best score in order |
| Odds.PlayCompletions | poker_odds.py:238-265 | the loop counts exactly the won completions and the tied completions |
| Odds.PreciseCalculateOdds | poker_odds.py:223-268 | the engine plays C(remaining, needed) completions, each a valid deal; its wins, ties and losses are the counts of those outcomes (under the corrected wheel tiebreaker) and sum to the total |
| Odds.Validate | poker_odds.py:124-137 | input passes exactly when your hand and each opponent hand have two cards, every card is valid and the board has at most five; a wrong own hand size is always the error reported |
| Odds.ValidCardsOfDeal | poker_odds.py:129-137 | all known cards are valid exactly when your cards, each opponent's and the board's are |
| Odds.ValidateAsWritten | poker_odds.py:124-137 | the literal checks accept everything the intended checks accept, and report a wrong own hand size in the same cases |
| Odds.SuitTokensAreSubstrings | poker_odds.py:129 | each of the four suit letters passes the substring test |
| Odds.OneLetterSubstrings | poker_odds.py:129 | a one-letter substring of `'HDCS'` is one of the four suits |
| Odds.ValidateAgreesOnOneLetterSuits | poker_odds.py:129 | when your suits are single letters, the literal and the intended checks give the same result |
| Odds.TwoLetterSuitAccepted | poker_odds.py:129 | a card with the suit `"HD"` in your hand passes the literal checks, but the intended checks reject it |
| Odds.CalculateOdds | poker_odds.py:124-189 | invalid input yields the source's first error; valid input makes every draw a valid deal, and the wins and ties are the counts of those outcomes over the draws (under the corrected wheel tiebreaker) |
| Odds.PlayDraws | poker_odds.py:157-189 | the category-first loop counts exactly the won draws and the tied draws |

## Left out

- `app.py`, the web front end, is not part of this model.
- `random.shuffle` and the trial count are not modelled. `CalculateOdds` takes the cards each trial draws as the parameter `draws`, so it covers any sequence of shuffles.
- The percentages are left out: the division by the total, `round(..., 2)`, and `loss = 100 - win - tie`. The model gives the counts they are computed from. When the remaining deck holds fewer cards than the board still needs (with two-card hands, 23 or more opponents: the remaining deck minus the cards still needed is 45 minus twice the number of opponents), there are no completions and the source divides by zero; the model returns three zero counts and a total of zero. Likewise `calculate_odds` with zero trials divides by zero at poker_odds.py:192, while `Odds.CalculateOdds` with no draws returns zero wins and zero ties.
- `print` calls, the module-level demo run, `Card.__str__`, `__repr__`, `__hash__` and the unused `Hand` class are left out. Hashing is modelled by value equality.
- The `HandRank` enum is modelled by its integer values, which is all the source compares.
- Odds.PreciseCalculateOdds requires a known deal: at least one opponent, at most five board cards, and every known card valid and different from the others. Hand sizes are not constrained; the source does no validation there. The excluded inputs behave as follows in the source, and those paths are not modelled:
  - with no opponents, `max(opponent_scores)` at poker_odds.py:260 raises on an empty list;
  - with more than five board cards, `combinations(deck, ...)` at poker_odds.py:235 raises for a negative size;
  - an invalid card, or a card repeated within one player's cards and the board, makes `evaluate_hand` (poker_odds.py:65-69) raise when `max` scores a selection holding it;
  - the same card in two players' hole cards runs normally in the source, because each `evaluate_hand` call sees only one player's cards and the board. The model excludes this input on purpose: it requires every known card to be different.
- Odds.CalculateOdds requires at least one opponent and no card known twice, and neither is checked up front by the source:
  - with no opponents, `max(...)` at poker_odds.py:177 raises on an empty sequence;
  - a card repeated within one player's cards and the board makes `evaluate_hand` raise at poker_odds.py:68;
  - the same card in two players' hole cards runs normally in the source; the model excludes this input on purpose.
- Odds.CalculateOdds: each draw must be exactly the number of cards the board still needs, distinct and unseen. With two-card hands and 23 or more opponents the remaining deck is shorter than that, so the model then admits only an empty list of draws. In the source, `deck[:num_community_needed]` gives a short board instead: with 23 opponents the trials run on the short board, and with 24 or more a player's cards number fewer than five, so `max(..., default=None)` returns `None` and `evaluate_hand(None)` raises at poker_odds.py:63.
- Odds.PreciseCalculateOdds: the deals are scored with the corrected wheel tiebreaker `[5]`, not the source's `[14]` (see Findings). The counts differ from the source's on deals where someone's best hand is a wheel. For example, with you holding A♣ 2♦, the board 3♥ 4♠ 5♣ 9♦ K♥ and an opponent holding 6♣ 7♦, the source counts a win (`(5, [14]) > (5, [7])`) and the model a loss.
- Odds.CalculateOdds: the same corrected wheel tiebreaker applies to every trial, so its counts differ from the source's on the same deals.
- BestHand.BestScore: scores hands with the corrected wheel tiebreaker. As written, the source also picks a wheel over a six-high straight from A-2-3-4-5-6, because `(5, [14])` beats `(5, [6])`; the model picks the six-high straight.
- `max(..., default=None)` at poker_odds.py:165 and 172: for the deals the model admits, the default is unreachable, because a holding always has a five-card selection (`BestHand.HandsArePlayable`). In the source it is reached with 24 or more opponents, as described above.
- The kickers of three of a kind and one pair are computed up front for every hand (`Features.kickers`). The source computes them only in those branches. This has no observable difference.
- BestHand.Best: its contract says only that the result is one of the selections. That none outscores it is proved separately, by `BestHand.BestScoreIsMaximum` and `BestHand.MaxByScoreIsFirstMaximum`.
- BestHand.MaxByScore: its contract says only that the result is one of the hands. The maximality `max` promises is in `BestHand.MaxByScoreIsFirstMaximum`.
- Scores.ArgMax: its contract gives only the bound. Being the first maximum is in `Scores.ArgMaxIsFirstMaximum`.
- Odds.Validate: `TooManyCommunityCards` is stated only as implying more than five board cards, because earlier invalid cards take precedence, as in the source.

## Findings

| source | as written | input that shows it | evidently intended | confidence | as-written member | corrected member |
|---|---|---|---|---|---|---|
| poker_odds.py:78-95 | the wheel sets `sorted_ranks = [5, 4, 3, 2, 14]`, but the straight tiebreaker is `max(sorted_ranks)`, which is 14 | A♥ 2♦ 3♣ 4♠ 5♥ against 10♥ J♦ Q♣ K♠ A♥: both score `(5, [14])` and tie | the wheel is the lowest straight, tiebreaker 5 (the first of `sorted_ranks`) | high; not executed | HandFacts.WheelTiesBroadwayAsWritten | HandFacts.WheelIsLowestStraight |
| poker_odds.py:129 | your cards' suits are checked with `card.suit in 'HDCS'`, a substring test on strings | your hand `[Card('A', 'HD'), Card('K', 'S')]`: accepted by the input checks, while the same card is rejected in an opponent hand or on the board; `evaluate_hand` (poker_odds.py:65) then rejects it in the first trial, so the only observable difference is which `ValueError` is raised | each suit must be one of `'H'`, `'D'`, `'C'`, `'S'`, as lines 132 and 136 check | high; not executed | Odds.TwoLetterSuitAccepted | Odds.Validate |

The corrected members are the ones the rest of the model uses. The literal
versions are `HandEvaluation.EvaluateAsWritten` and `Odds.ValidateAsWritten`.
`HandFacts.AsWrittenAgreesOffWheel` and `Odds.ValidateAgreesOnOneLetterSuits`
prove that each literal version differs from the corrected one only on the
inputs named above.
