/** What Hand.beats decides: hands of the same type compare by their top cards
    (Flushes by suit first), hands of different five-card types by beatType. */
module BeatsFacts {
  import opened Wrappers
  import opened Cards
  import opened CardLists
  import opened HandRules
  import opened ShapeFacts

  /** Only a valid hand beats anything, and only a hand of the same size. */
  lemma BeatsNeedsValidSameSize(h: HandValue, o: HandValue)
    requires BeatsDefined(h, o) && Beats(h, o)
    ensures Valid(h) && |h.cards| == |o.cards|
  {
  }

  /** Two valid hands of one shape other than Flush: the higher top card wins. */
  lemma SameShapeByTopCard(h: HandValue, o: HandValue)
    requires Valid(h) && Valid(o) && h.shape == o.shape && h.shape != Flush
    ensures Beats(h, o) <==> CompareTo(TopCard(h).value, TopCard(o).value) > 0
  {
  }

  /** No hand beats itself. */
  lemma BeatsIrreflexive(h: HandValue)
    ensures BeatsDefined(h, h) && !Beats(h, h)
  {
  }

  /** Of two valid hands of one shape, at most one beats the other, and when their
      top cards differ exactly one does. */
  lemma SameShapeAsymmetricAndTotal(h: HandValue, o: HandValue)
    requires Valid(h) && Valid(o) && h.shape == o.shape
    ensures !(Beats(h, o) && Beats(o, h))
    ensures TopCard(h) != TopCard(o) ==> Beats(h, o) || Beats(o, h)
  {
    var a, b := TopCard(h).value, TopCard(o).value;
    if h.shape == Flush && a != b && a.suit == b.suit {
      RankKeyInjective(a, b);
    }
  }

  /** Among valid hands of one shape other than Flush, beating is transitive. */
  lemma SameShapeTransitive(h: HandValue, o: HandValue, p: HandValue)
    requires Valid(h) && Valid(o) && Valid(p)
    requires h.shape == o.shape == p.shape && h.shape != Flush
    requires Beats(h, o) && Beats(o, p)
    ensures Beats(h, p)
  {
    CompareTransitive(TopCard(p).value, TopCard(o).value, TopCard(h).value);
    CompareAntisymmetric(TopCard(h).value, TopCard(o).value);
    CompareAntisymmetric(TopCard(o).value, TopCard(p).value);
    CompareAntisymmetric(TopCard(h).value, TopCard(p).value);
  }

  /** A hand never beats one of a different size. */
  lemma SizesMustMatch(h: HandValue, o: HandValue)
    requires BeatsDefined(h, o) && |h.cards| != |o.cards|
    ensures !Beats(h, o)
  {
  }

  /** One Single beats another exactly when its card is the greater. */
  lemma SingleBeats(a: Card, b: Card, p: int, q: int)
    ensures Beats(HandValue(Single, p, [a]), HandValue(Single, q, [b])) <==> CompareTo(a, b) > 0
  {
    SingleTopCard(p, [a]);
    SingleTopCard(q, [b]);
  }

  /** A Pair or Triple's top card has the rank all its cards share. */
  lemma GroupTopRank(h: HandValue)
    requires Valid(h) && (h.shape == Pair || h.shape == Triple)
    ensures TopCard(h).value.rank == h.cards[0].rank
  {
    if h.shape == Pair {
      PairTopCard(h.player, h.cards);
      PairIff(h.cards);
    } else {
      TripleTopCard(h.player, h.cards);
      TripleIff(h.cards);
      var t := TopCard(h).value;
      var k :| 0 <= k < 3 && h.cards[k] == t;
    }
  }

  /** Pairs and Triples of different ranks: the higher rank wins, whatever the suits. */
  lemma GroupByRank(h: HandValue, o: HandValue)
    requires Valid(h) && Valid(o) && h.shape == o.shape && (h.shape == Pair || h.shape == Triple)
    requires h.cards[0].rank != o.cards[0].rank
    ensures Beats(h, o) <==> RankKey(h.cards[0]) > RankKey(o.cards[0])
  {
    GroupTopRank(h);
    GroupTopRank(o);
    RankKeyInjective(h.cards[0], o.cards[0]);
  }

  /** Only one rank fills three places of a five-card hand. */
  lemma TripleRankUnique(cs: seq<Card>, x: Rank, y: Rank)
    requires |cs| == 5 && RankCount(cs, x) >= 3 && RankCount(cs, y) >= 3
    ensures x == y
  {
    RankCountFive(cs, x);
    RankCountFive(cs, y);
  }

  /** Full Houses of different triples: the higher triple wins, whatever the pair. */
  lemma FullHouseByTriple(h: HandValue, o: HandValue, x: Rank, y: Rank)
    requires Valid(h) && Valid(o) && h.shape == FullHouse && o.shape == FullHouse
    requires RankCount(h.cards, x) == 3 && RankCount(o.cards, y) == 3 && x != y
    ensures Beats(h, o) <==> RankKey(Card(0, x)) > RankKey(Card(0, y))
  {
    FullHouseTopCard(h.player, h.cards);
    FullHouseTopCard(o.player, o.cards);
    var a, b := TopCard(h).value, TopCard(o).value;
    TripleRankUnique(h.cards, x, a.rank);
    TripleRankUnique(o.cards, y, b.rank);
    SameShapeByTopCard(h, o);
    assert RankKey(a) == RankKey(Card(0, x)) && RankKey(b) == RankKey(Card(0, y));
    RankKeyInjective(a, b);
  }

  /** Quads of different ranks: the higher four of a kind wins, whatever the fifth card. */
  lemma QuadByRank(h: HandValue, o: HandValue, x: Rank, y: Rank)
    requires Valid(h) && Valid(o) && h.shape == Quad && o.shape == Quad
    requires Distinct(h.cards) && Distinct(o.cards)
    requires RankCount(h.cards, x) >= 4 && RankCount(o.cards, y) >= 4 && x != y
    ensures Beats(h, o) <==> RankKey(Card(0, x)) > RankKey(Card(0, y))
  {
    QuadTopCard(h.player, h.cards);
    QuadTopCard(o.player, o.cards);
    var a, b := TopCard(h).value, TopCard(o).value;
    TripleRankUnique(h.cards, x, a.rank);
    TripleRankUnique(o.cards, y, b.rank);
    SameShapeByTopCard(h, o);
    assert RankKey(a) == RankKey(Card(0, x)) && RankKey(b) == RankKey(Card(0, y));
    RankKeyInjective(a, b);
  }

  /** Valid Flushes: the higher suit wins; in one suit, the higher top rank. */
  lemma FlushBySuitThenRank(h: HandValue, o: HandValue)
    requires Valid(h) && Valid(o) && h.shape == Flush && o.shape == Flush
    ensures var a, b := h.cards[0].suit, o.cards[0].suit;
      Beats(h, o) <==> a > b || (a == b && RankKey(TopCard(h).value) > RankKey(TopCard(o).value))
  {
    TopCardIsGreatest(h);
    TopCardIsGreatest(o);
    FlushIff(h.cards);
    FlushIff(o.cards);
    assert h.cards[0] in h.cards && o.cards[0] in o.cards;
  }

  /** A Straight Flush beats every five-card hand of another type. */
  lemma StraightFlushBeatsOtherTypes(h: HandValue, o: HandValue)
    requires Valid(h) && h.shape == StraightFlush
    requires |o.cards| == 5 && TypeOf(o) != Some(StraightFlush)
    ensures BeatsDefined(h, o) && Beats(h, o)
  {
  }

  /** A Quad beats five-card hands of other types except a Straight Flush. */
  lemma QuadAgainstOtherTypes(h: HandValue, o: HandValue)
    requires Valid(h) && h.shape == Quad && |o.cards| == 5 && TypeOf(o) != Some(Quad)
    ensures BeatsDefined(h, o)
    ensures Beats(h, o) <==> TypeOf(o) != Some(StraightFlush)
  {
  }

  /** beatType as written: a valid Full House beats every five-card hand of another
      type, a Straight Flush and a Quad included. */
  lemma FullHouseBeatsOtherTypes(h: HandValue, o: HandValue)
    requires Valid(h) && h.shape == FullHouse
    requires |o.cards| == 5 && TypeOf(o) != Some(FullHouse)
    ensures BeatsDefined(h, o) && Beats(h, o)
  {
  }

  /** So a valid Quad and a valid Full House each beat the other. */
  lemma QuadAndFullHouseBeatEachOther(q: HandValue, f: HandValue)
    requires Valid(q) && q.shape == Quad && Valid(f) && f.shape == FullHouse
    ensures Beats(q, f) && Beats(f, q)
  {
  }

  /** beatType as written: a Flush beats every other five-card type except a Straight.
      A Straight cannot beat a Flush either (StraightOnlyBeatsStraights), so the two never
      meet. A Straight Flush, a Quad and a Full House each also beat a Flush. */
  lemma FlushAgainstOtherTypes(h: HandValue, o: HandValue)
    requires Valid(h) && h.shape == Flush && |o.cards| == 5 && TypeOf(o) != Some(Flush)
    ensures BeatsDefined(h, o)
    ensures Beats(h, o) <==> TypeOf(o) != Some(Straight)
  {
  }

  /** A Straight only ever beats another Straight. */
  lemma StraightOnlyBeatsStraights(h: HandValue, o: HandValue)
    requires h.shape == Straight && TypeOf(o) != Some(Straight)
    ensures BeatsDefined(h, o) && !Beats(h, o)
  {
  }

  /** Singles, Pairs and Triples only ever beat hands of their own type. */
  lemma SmallHandsBeatOnlyTheirType(h: HandValue, o: HandValue)
    requires h.shape == Single || h.shape == Pair || h.shape == Triple
    requires TypeOf(o) != Some(h.shape)
    ensures BeatsDefined(h, o) && !Beats(h, o)
  {
  }
}
