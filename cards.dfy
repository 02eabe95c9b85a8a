/** Playing cards, the 52-card deck, removal of the cards already known, and
    the duplicate check (poker_odds.py: Card, create_deck, duplicate_card and
    the deck-filtering comprehensions of both odds engines). */
module Cards {
  import opened Sequences

  /** A card is a rank token and a suit token. Dafny's structural equality on
      this datatype is the source's `__eq__`/`__hash__` on (rank, suit). */
  datatype Card = Card(rank: string, suit: string)

  /** The rank tokens, lowest first. */
  const Ranks: seq<string> := ["2", "3", "4", "5", "6", "7", "8", "9", "10", "J", "Q", "K", "A"]

  /** The suit tokens: Hearts, Diamonds, Clubs, Spades. */
  const Suits: seq<string> := ["H", "D", "C", "S"]

  /** The numeric value of each rank token, the ace high. */
  const RankValues: map<string, int> :=
    map["2" := 2, "3" := 3, "4" := 4, "5" := 5, "6" := 6, "7" := 7, "8" := 8,
        "9" := 9, "10" := 10, "J" := 11, "Q" := 12, "K" := 13, "A" := 14]

  /** Rank and suit belong to the fixed enumerations. */
  predicate ValidCard(c: Card) {
    c.rank in Ranks && c.suit in Suits
  }

  predicate AllValid(cards: seq<Card>) {
    forall c :: c in cards ==> ValidCard(c)
  }

  /** `values[card.rank]` */
  function Value(c: Card): (v: int)
    requires ValidCard(c)
    ensures 2 <= v <= 14
    ensures v == 2 + IndexOfRank(c.rank)
  {
    RankValues[c.rank]
  }

  /** The position of a rank token in `Ranks`. */
  function IndexOfRank(r: string): (i: nat)
    requires r in Ranks
    ensures i < |Ranks| && Ranks[i] == r
  {
    if r == "2" then 0 else if r == "3" then 1 else if r == "4" then 2
    else if r == "5" then 3 else if r == "6" then 4 else if r == "7" then 5
    else if r == "8" then 6 else if r == "9" then 7 else if r == "10" then 8
    else if r == "J" then 9 else if r == "Q" then 10 else if r == "K" then 11
    else 12
  }

  /** `create_deck()`: every rank with every suit, rank-major. */
  function CreateDeck(): (deck: seq<Card>)
    ensures |deck| == 52
  {
    seq(52, i requires 0 <= i < 52 => Card(Ranks[i / 4], Suits[i % 4]))
  }

  /** The deck holds exactly the valid cards. */
  lemma DeckComplete(c: Card)
    ensures c in CreateDeck() <==> ValidCard(c)
  {
    var deck := CreateDeck();
    if c in deck {
      var i :| 0 <= i < 52 && deck[i] == c;
      assert 0 <= i / 4 < 13 && 0 <= i % 4 < 4;
      assert Ranks[i / 4] in Ranks && Suits[i % 4] in Suits;
    }
    if ValidCard(c) {
      var a := IndexOfRank(c.rank);
      var b :| 0 <= b < 4 && Suits[b] == c.suit;
      var i := 4 * a + b;
      assert i / 4 == a && i % 4 == b;
      assert deck[i] == c;
    }
  }

  /** The deck holds no card twice. */
  lemma DeckDistinct()
    ensures Distinct(CreateDeck())
  {
    var deck := CreateDeck();
    forall i, j | 0 <= i < j < 52 ensures deck[i] != deck[j] {
      if i / 4 != j / 4 {
        assert Ranks[i / 4] != Ranks[j / 4];
      } else {
        assert i % 4 != j % 4;
        assert Suits[i % 4] != Suits[j % 4];
      }
    }
  }

  /** `[card for card in deck if card not in known_cards]` */
  function Residual(deck: seq<Card>, known: seq<Card>): (r: seq<Card>)
    ensures forall c :: c in r <==> c in deck && c !in known
    ensures Distinct(deck) ==> Distinct(r)
  {
    if deck == [] then []
    else
      var rest := Residual(deck[1..], known);
      assert forall c :: c in deck <==> c == deck[0] || c in deck[1..];
      if deck[0] in known then rest
      else
        assert Distinct(deck) ==> deck[0] !in deck[1..];
        [deck[0]] + rest
  }

  /** Removing distinct valid known cards from the deck leaves 52 minus their
      number. */
  lemma ResidualSize(known: seq<Card>)
    requires AllValid(known) && Distinct(known)
    ensures |Residual(CreateDeck(), known)| == 52 - |known|
  {
    var deck := CreateDeck();
    var r := Residual(deck, known);
    DeckDistinct();
    DistinctSetSize(deck);
    DistinctSetSize(known);
    DistinctSetSize(r);
    forall c | c in known ensures c in SetOf(deck) {
      DeckComplete(c);
    }
    assert SetOf(r) == SetOf(deck) - SetOf(known);
  }

  /** `duplicate_card(cards)`: records each card in `seen` and reports the
      first card seen before. */
  method DuplicateCard(cards: seq<Card>) returns (dup: bool)
    ensures dup <==> !Distinct(cards)
  {
    var seen: set<Card> := {};
    for i := 0 to |cards|
      invariant seen == SetOf(cards[..i])
      invariant Distinct(cards[..i])
    {
      if cards[i] in seen {
        assert cards[i] in cards[..i];
        return true;
      }
      assert cards[..i + 1] == cards[..i] + [cards[i]];
      seen := seen + {cards[i]};
    }
    assert cards[..|cards|] == cards;
    return false;
  }
}
