/** Cards of the Big Two deck and the one order used to compare them
    (BigTwoCard.compareTo). */
module Cards {

  /** Suit 0 is diamonds, 1 clubs, 2 hearts, 3 spades. */
  type Suit = s: int | 0 <= s < 4

  /** Rank 0 is the Ace, 1 the "2", 2 the "3", ..., 12 the King. */
  type Rank = r: int | 0 <= r < 13

  datatype Card = Card(suit: Suit, rank: Rank)

  /** The lead card of a game. */
  const ThreeOfDiamonds: Card := Card(0, 2)

  /** The highest card of the deck. */
  const TwoOfSpades: Card := Card(3, 1)

  /** Position of a card's rank in the Big Two order 3 < 4 < ... < K < A < 2. */
  function RankKey(c: Card): (k: int)
    ensures 0 <= k < 13
  {
    if c.rank >= 2 then c.rank - 2 else c.rank + 11
  }

  /** The key is compareTo's (rank + 11) mod 13. */
  lemma RankKeyIsShiftedRank(c: Card)
    ensures RankKey(c) == (c.rank + 11) % 13
  {
  }

  /** compareTo: the rank key decides, then the suit; the result is -1, 0 or 1. */
  function CompareTo(a: Card, b: Card): (r: int)
    ensures r == -1 || r == 0 || r == 1
    ensures r == 0 <==> a == b
    ensures r == 1 <==> RankKey(a) > RankKey(b) || (RankKey(a) == RankKey(b) && a.suit > b.suit)
  {
    var ka, kb := RankKey(a), RankKey(b);
    if ka > kb then 1
    else if ka < kb then -1
    else if a.suit > b.suit then 1
    else if a.suit < b.suit then -1
    else 0
  }

  /** Two cards have the same rank key exactly when they have the same rank. */
  lemma RankKeyInjective(a: Card, b: Card)
    ensures RankKey(a) == RankKey(b) <==> a.rank == b.rank
  {
  }

  /** The "2" has the highest key, the Ace the next one, the "3" the lowest. */
  lemma RankKeyExtremes(c: Card)
    ensures c.rank == 1 <==> RankKey(c) == 12
    ensures c.rank == 0 <==> RankKey(c) == 11
    ensures c.rank == 2 <==> RankKey(c) == 0
  {
  }

  lemma CompareAntisymmetric(a: Card, b: Card)
    ensures CompareTo(a, b) == -CompareTo(b, a)
  {
  }

  lemma CompareTransitive(a: Card, b: Card, c: Card)
    ensures CompareTo(a, b) <= 0 && CompareTo(b, c) <= 0 ==> CompareTo(a, c) <= 0
    ensures CompareTo(a, b) < 0 && CompareTo(b, c) <= 0 ==> CompareTo(a, c) < 0
    ensures CompareTo(a, b) <= 0 && CompareTo(b, c) < 0 ==> CompareTo(a, c) < 0
  {
  }

  /** The 3 of diamonds lies below every other card, and only it lies at or below itself. */
  lemma ThreeOfDiamondsIsMinimum(c: Card)
    ensures CompareTo(ThreeOfDiamonds, c) <= 0
    ensures CompareTo(c, ThreeOfDiamonds) <= 0 ==> c == ThreeOfDiamonds
  {
  }

  /** The 2 of spades lies above every other card, and only it lies at or above itself. */
  lemma TwoOfSpadesIsMaximum(c: Card)
    ensures CompareTo(c, TwoOfSpades) <= 0
    ensures CompareTo(TwoOfSpades, c) <= 0 ==> c == TwoOfSpades
  {
  }
}
