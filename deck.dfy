/** BigTwoDeck: the 52 cards, suit by suit, each suit from the "3" up to the "2". */
module Deck {
  import opened Cards
  import opened CardLists

  /** The 52 cards in the order initialize adds them: for suit i and step j the
      card (i, (j + 2) mod 13). */
  function FullDeck(): (d: seq<Card>)
    ensures |d| == 52
  {
    seq(52, k requires 0 <= k < 52 => Card(k / 13, (k % 13 + 2) % 13))
  }

  /** The card added at step j of suit i sits at position 13 i + j; its rank key is j. */
  lemma DeckAt(i: int, j: int)
    requires 0 <= i < 4 && 0 <= j < 13
    ensures 13 * i + j < 52
    ensures FullDeck()[13 * i + j] == Card(i, (j + 2) % 13)
    ensures RankKey(FullDeck()[13 * i + j]) == j
  {
    var k := 13 * i + j;
    assert k / 13 == i && k % 13 == j;
  }

  /** Where a card lies in the deck: at 13 times its suit plus its rank key. */
  lemma DeckPosition(c: Card)
    ensures 13 * c.suit + RankKey(c) < 52
    ensures FullDeck()[13 * c.suit + RankKey(c)] == c
  {
    DeckAt(c.suit, RankKey(c));
  }

  /** Position k holds the card whose suit is k / 13 and whose rank key is k mod 13. */
  lemma DeckCardAt(k: int)
    requires 0 <= k < 52
    ensures FullDeck()[k].suit == k / 13 && RankKey(FullDeck()[k]) == k % 13
  {
    DeckAt(k / 13, k % 13);
  }

  /** No card is added twice. */
  lemma DeckDistinct()
    ensures Distinct(FullDeck())
  {
    var d := FullDeck();
    forall i, j | 0 <= i < j < 52 ensures d[i] != d[j] {
      DeckCardAt(i);
      DeckCardAt(j);
      assert i == 13 * (i / 13) + i % 13 && j == 13 * (j / 13) + j % 13;
      assert i / 13 != j / 13 || i % 13 != j % 13;
    }
  }

  /** Every (suit, rank) pair occurs in the deck exactly once. */
  lemma DeckHoldsEveryCardOnce(c: Card)
    ensures multiset(FullDeck())[c] == 1
  {
    DeckDistinct();
    DeckPosition(c);
    DistinctCount(FullDeck(), c);
  }

  /** Within each suit the cards run in strictly ascending compareTo order. */
  lemma DeckAscendingWithinSuit(i: int, j1: int, j2: int)
    requires 0 <= i < 4 && 0 <= j1 < j2 < 13
    ensures CompareTo(FullDeck()[13 * i + j1], FullDeck()[13 * i + j2]) == -1
  {
    DeckAt(i, j1);
    DeckAt(i, j2);
  }

  class BigTwoDeck {
    var cards: seq<Card>

    /** An empty deck. */
    constructor ()
      ensures cards == []
    {
      cards := [];
    }

    /** initialize: discard the current cards, then add the 52 cards suit by suit. */
    method Initialize()
      modifies this
      ensures cards == FullDeck()
    {
      cards := [];
      var i := 0;
      while i < 4
        invariant 0 <= i <= 4
        invariant cards == FullDeck()[..13 * i]
      {
        var j := 0;
        while j < 13
          invariant 0 <= j <= 13
          invariant cards == FullDeck()[..13 * i + j]
        {
          DeckAt(i, j);
          cards := cards + [Card(i, (j + 2) % 13)];
          j := j + 1;
        }
        i := i + 1;
      }
    }
  }
}
