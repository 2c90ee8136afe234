/** What each isValid test means, stated on the cards as given (before sorting),
    which shapes exclude each other, and what getTopCard picks. */
module ShapeFacts {
  import opened Wrappers
  import opened Cards
  import opened CardLists
  import opened HandRules

  /** All cards share one rank. */
  predicate AllOneRank(s: seq<Card>) {
    forall a, b :: a in s && b in s ==> a.rank == b.rank
  }

  /** All cards share one suit. */
  predicate AllOneSuit(s: seq<Card>) {
    forall a, b :: a in s && b in s ==> a.suit == b.suit
  }

  /** The rank keys are k, k+1, k+2, ... with k the first key. */
  predicate KeysRun(s: seq<Card>)
    requires |s| > 0
  {
    forall i :: 0 <= i < |s| ==> RankKey(s[i]) == RankKey(s[0]) + i
  }

  // ----- small facts about sorted five-card lists -----

  lemma SortedKeysMonotone(s: seq<Card>)
    requires Sorted(s)
    ensures forall i, j :: 0 <= i < j < |s| ==> RankKey(s[i]) <= RankKey(s[j])
  {
    forall i, j | 0 <= i < j < |s| ensures RankKey(s[i]) <= RankKey(s[j]) {
      assert CompareTo(s[i], s[j]) <= 0;
    }
  }

  lemma OneRankPermutation(s: seq<Card>, t: seq<Card>)
    requires multiset(s) == multiset(t)
    ensures AllOneRank(s) == AllOneRank(t) && AllOneSuit(s) == AllOneSuit(t)
  {
    PermutationMembers(s, t);
  }

  lemma AdjacentSuitsFive(s: seq<Card>)
    requires |s| == 5
    ensures SameSuit(s) <==> AllOneSuit(s)
  {
    assert s == [s[0], s[1], s[2], s[3], s[4]];
    if SameSuit(s) {
      assert s[0].suit == s[1].suit == s[2].suit == s[3].suit == s[4].suit;
    }
  }

  lemma AdjacentKeysRun(s: seq<Card>)
    requires |s| == 5
    ensures ConsecutiveKeys(s) <==> KeysRun(s)
  {
    if ConsecutiveKeys(s) {
      assert RankKey(s[1]) == RankKey(s[0]) + 1;
      assert RankKey(s[2]) == RankKey(s[1]) + 1;
      assert RankKey(s[3]) == RankKey(s[2]) + 1;
      assert RankKey(s[4]) == RankKey(s[3]) + 1;
    }
    if KeysRun(s) {
      forall i | 0 <= i < 4 ensures RankKey(s[i]) + 1 == RankKey(s[i + 1]) {
        assert RankKey(s[i]) == RankKey(s[0]) + i;
        assert RankKey(s[i + 1]) == RankKey(s[0]) + i + 1;
      }
    }
  }

  // ----- each shape against a reference definition -----

  /** Single.isValid: exactly one card. */
  lemma SingleIff(cs: seq<Card>)
    ensures ValidCards(Single, cs) <==> |cs| == 1
  {
  }

  /** Pair.isValid: two cards of the same rank, in whichever order they come. */
  lemma PairIff(cs: seq<Card>)
    ensures ValidCards(Pair, cs) <==> |cs| == 2 && cs[0].rank == cs[1].rank
  {
    if |cs| == 2 {
      TwoPermutation(SortCards(cs), cs);
    }
  }

  /** Triple.isValid: three cards of the same rank, in whichever order they come. */
  lemma TripleIff(cs: seq<Card>)
    ensures ValidCards(Triple, cs) <==> |cs| == 3 && cs[0].rank == cs[1].rank && cs[1].rank == cs[2].rank
  {
    if |cs| == 3 {
      var s := SortCards(cs);
      PermutationMembers(s, cs);
      if s[0].rank == s[1].rank && s[1].rank == s[2].rank {
        forall k | 0 <= k < 3 ensures cs[k].rank == s[0].rank {
          assert cs[k] in s;
        }
      }
      if cs[0].rank == cs[1].rank && cs[1].rank == cs[2].rank {
        forall k | 0 <= k < 3 ensures s[k].rank == cs[0].rank {
          assert s[k] in cs;
        }
      }
    }
  }

  /** Straight.isValid: five sorted rank keys k..k+4, and not all suits alike. */
  lemma StraightIff(cs: seq<Card>)
    ensures ValidCards(Straight, cs) <==> |cs| == 5 && KeysRun(SortCards(cs)) && !AllOneSuit(cs)
  {
    if |cs| == 5 {
      var s := SortCards(cs);
      AdjacentKeysRun(s);
      AdjacentSuitsFive(s);
      OneRankPermutation(s, cs);
    }
  }

  /** Flush.isValid: five cards of one suit whose sorted keys are not a run. */
  lemma FlushIff(cs: seq<Card>)
    ensures ValidCards(Flush, cs) <==> |cs| == 5 && AllOneSuit(cs) && !KeysRun(SortCards(cs))
  {
    if |cs| == 5 {
      var s := SortCards(cs);
      AdjacentKeysRun(s);
      AdjacentSuitsFive(s);
      OneRankPermutation(s, cs);
    }
  }

  /** StraightFlush.isValid: five cards of one suit whose sorted keys are a run. */
  lemma StraightFlushIff(cs: seq<Card>)
    ensures ValidCards(StraightFlush, cs) <==> |cs| == 5 && AllOneSuit(cs) && KeysRun(SortCards(cs))
  {
    if |cs| == 5 {
      var s := SortCards(cs);
      AdjacentKeysRun(s);
      AdjacentSuitsFive(s);
      OneRankPermutation(s, cs);
    }
  }

  /** A run starts at key 8 at the latest (J Q K A 2), so it never wraps from
      the "2" to the "3", and a "2" can only be its top card. */
  lemma NoWrapAround(cs: seq<Card>)
    requires ValidCards(Straight, cs) || ValidCards(StraightFlush, cs)
    ensures RankKey(SortCards(cs)[0]) <= 8
    ensures forall i :: 0 <= i < 4 ==> SortCards(cs)[i].rank != 1
    ensures !((exists a :: a in cs && a.rank == 1) && (exists b :: b in cs && b.rank == 2))
  {
    var s := SortCards(cs);
    AdjacentKeysRun(s);
    assert RankKey(s[4]) == RankKey(s[0]) + 4;
    forall i | 0 <= i < 4 ensures s[i].rank != 1 {
      assert RankKey(s[i]) == RankKey(s[0]) + i;
    }
    PermutationMembers(s, cs);
    if a :| a in cs && a.rank == 1 {
      var i :| 0 <= i < 5 && s[i] == a;
      assert i == 4;
      assert RankKey(s[0]) == 8;
      forall b | b in cs ensures b.rank != 2 {
        var j :| 0 <= j < 5 && s[j] == b;
        assert RankKey(s[j]) == 8 + j;
      }
    }
  }

  /** Rank counts of a five-card hand are those of its sorted cards. */
  lemma SortedRankCounts(cs: seq<Card>, x: Rank)
    requires |cs| == 5
    ensures RankCount(cs, x) == RankCount(SortCards(cs), x)
  {
    RankCountPermutation(cs, SortCards(cs), x);
  }

  /** FullHouse.isValid: three cards of one rank and two of another. */
  lemma FullHouseIff(cs: seq<Card>)
    ensures ValidCards(FullHouse, cs) <==>
      |cs| == 5 && exists x: Rank, y: Rank :: x != y && RankCount(cs, x) == 3 && RankCount(cs, y) == 2
  {
    if |cs| == 5 {
      var s := SortCards(cs);
      if ValidCards(FullHouse, cs) {
        var x, y := s[2].rank, if FullHouseLow(s) then s[3].rank else s[0].rank;
        SortedRankCounts(cs, x);
        SortedRankCounts(cs, y);
        RankCountFive(s, x);
        RankCountFive(s, y);
      }
      if x: Rank, y: Rank :| x != y && RankCount(cs, x) == 3 && RankCount(cs, y) == 2 {
        SortedRankCounts(cs, x);
        SortedRankCounts(cs, y);
        RankCountFive(s, x);
        RankCountFive(s, y);
        FullHouseLayout(s, x, y);
      }
    }
  }

  /** In a sorted five-card list holding only ranks x and y and starting with
      x, the cards of rank y come after all those of rank x. */
  lemma TwoRankBlocks(s: seq<Card>, x: Rank, y: Rank)
    requires |s| == 5 && Sorted(s) && x != y
    requires forall i :: 0 <= i < 5 ==> s[i].rank == x || s[i].rank == y
    requires s[0].rank == x
    ensures forall i, j :: 0 <= i < j < 5 && s[i].rank == y ==> s[j].rank == y
  {
    SortedKeysMonotone(s);
  }

  /** Three of x and two of y in a sorted list lie as XXX YY or YY XXX. */
  lemma FullHouseLayout(s: seq<Card>, x: Rank, y: Rank)
    requires |s| == 5 && Sorted(s) && x != y
    requires RankCount(s, x) == 3 && RankCount(s, y) == 2
    ensures FullHouseLow(s) || FullHouseHigh(s)
  {
    RankCountFive(s, x);
    RankCountFive(s, y);
    assert forall i :: 0 <= i < 5 ==> s[i].rank == x || s[i].rank == y;
    if s[0].rank == x {
      TwoRankBlocks(s, x, y);
      assert s[3].rank == y;
    } else {
      TwoRankBlocks(s, y, x);
      assert s[2].rank == x;
    }
  }

  /** Quad.isValid: at least four cards of one rank. */
  lemma QuadIff(cs: seq<Card>)
    ensures ValidCards(Quad, cs) <==> |cs| == 5 && exists x: Rank :: RankCount(cs, x) >= 4
  {
    if |cs| == 5 {
      var s := SortCards(cs);
      if ValidCards(Quad, cs) {
        var x := s[2].rank;
        SortedRankCounts(cs, x);
        RankCountFive(s, x);
      }
      if x: Rank :| RankCount(cs, x) >= 4 {
        SortedRankCounts(cs, x);
        QuadLayout(s, x);
      }
    }
  }

  /** Four or more of x in a sorted five-card list take the first four or the last four places. */
  lemma QuadLayout(s: seq<Card>, x: Rank)
    requires |s| == 5 && Sorted(s) && RankCount(s, x) >= 4
    ensures QuadLow(s) || QuadHigh(s)
  {
    RankCountFive(s, x);
    SortedKeysMonotone(s);
    assert forall i :: 0 <= i < 5 ==> (RankKey(s[i]) == RankKey(Card(0, x)) <==> s[i].rank == x);
    if s[0].rank == x && s[4].rank == x {
      forall i | 0 < i < 4 ensures s[i].rank == x {
        assert RankKey(s[0]) <= RankKey(s[i]) <= RankKey(s[4]);
      }
    }
  }

  // ----- exclusivity -----

  /** The Full House and Quad tests never both hold. */
  lemma FullHouseNotQuad(cs: seq<Card>)
    ensures !(ValidCards(FullHouse, cs) && ValidCards(Quad, cs))
  {
  }

  /** A Straight Flush is neither a Straight nor a Flush, and no list is both. */
  lemma StraightFlushSeparate(cs: seq<Card>)
    ensures !(ValidCards(Straight, cs) && ValidCards(StraightFlush, cs))
    ensures !(ValidCards(Flush, cs) && ValidCards(StraightFlush, cs))
    ensures !(ValidCards(Straight, cs) && ValidCards(Flush, cs))
  {
  }

  /** A run has five different ranks, so it is neither a Full House nor a Quad. */
  lemma RunNotGrouped(cs: seq<Card>)
    ensures !(ValidCards(StraightFlush, cs) && (ValidCards(FullHouse, cs) || ValidCards(Quad, cs)))
    ensures !(ValidCards(Straight, cs) && (ValidCards(FullHouse, cs) || ValidCards(Quad, cs)))
  {
    if |cs| == 5 {
      var s := SortCards(cs);
      if ConsecutiveKeys(s) {
        assert RankKey(s[0]) + 1 == RankKey(s[1]);
        assert RankKey(s[1]) + 1 == RankKey(s[2]);
      }
    }
  }

  /** With distinct cards, a Flush has no two cards of one rank, so it is
      neither a Full House nor a Quad. */
  lemma FlushNotGrouped(cs: seq<Card>)
    requires Distinct(cs)
    ensures !(ValidCards(Flush, cs) && (ValidCards(FullHouse, cs) || ValidCards(Quad, cs)))
  {
    if ValidCards(Flush, cs) {
      var s := SortCards(cs);
      DistinctPermutation(cs, s);
      assert s[0] != s[1] && s[1] != s[2];
      assert s[0].suit == s[1].suit && s[1].suit == s[2].suit;
      assert s[0].rank != s[1].rank && s[1].rank != s[2].rank;
    }
  }

  /** A list of distinct cards has at most one shape. */
  lemma ShapesExclusive(sh1: Shape, sh2: Shape, cs: seq<Card>)
    requires Distinct(cs) && sh1 != sh2
    ensures !(ValidCards(sh1, cs) && ValidCards(sh2, cs))
  {
    FullHouseNotQuad(cs);
    StraightFlushSeparate(cs);
    RunNotGrouped(cs);
    FlushNotGrouped(cs);
  }

  /** So composeHand's try-order does not matter: it returns the one shape
      that fits, holding the sorted cards. */
  lemma ComposeFindsTheShape(player: int, sh: Shape, cs: seq<Card>)
    requires Distinct(cs) && ValidCards(sh, cs)
    ensures Compose(player, Some(cs)) == Some(HandValue(sh, player, if sh == Single then cs else SortCards(cs)))
  {
    if |cs| == 5 {
      if sh != Straight {
        ShapesExclusive(sh, Straight, cs);
        assert TryShape(Straight, player, cs).None?;
      }
      if sh != Flush {
        ShapesExclusive(sh, Flush, cs);
        assert TryShape(Flush, player, cs).None?;
      }
      if sh != FullHouse {
        ShapesExclusive(sh, FullHouse, cs);
        assert TryShape(FullHouse, player, cs).None?;
      }
      if sh != Quad {
        ShapesExclusive(sh, Quad, cs);
        assert TryShape(Quad, player, cs).None?;
      }
    }
  }

  /** composeHand gives null for a pass and for sizes other than 1, 2, 3 and 5. */
  lemma ComposeRejectsSizes(player: int, cards: Option<seq<Card>>)
    requires cards.None? || |cards.value| !in {1, 2, 3, 5}
    ensures Compose(player, cards) == None
  {
  }

  // ----- top cards -----

  /** The only card of a Single is its top card. */
  lemma SingleTopCard(player: int, cs: seq<Card>)
    requires ValidCards(Single, cs)
    ensures TopCard(HandValue(Single, player, cs)) == Some(cs[0])
  {
    SortCardsOfSorted(cs);
  }

  /** Outside Full House and Quad, the top card is the greatest card of the hand. */
  lemma TopCardIsGreatest(h: HandValue)
    requires Valid(h) && h.shape != FullHouse && h.shape != Quad
    ensures TopCard(h).Some? && TopCard(h).value in h.cards
    ensures forall c :: c in h.cards ==> CompareTo(c, TopCard(h).value) <= 0
  {
    var s := SortCards(h.cards);
    PermutationMembers(s, h.cards);
    var t := s[|s| - 1];
    assert t in s;
    forall c | c in h.cards ensures CompareTo(c, t) <= 0 {
      var k :| 0 <= k < |s| && s[k] == c;
      if k < |s| - 1 {
        assert CompareTo(s[k], s[|s| - 1]) <= 0;
      }
    }
  }

  /** Two lists holding the same two cards are equal or swapped. */
  lemma TwoPermutation(s: seq<Card>, t: seq<Card>)
    requires |s| == 2 && |t| == 2 && multiset(s) == multiset(t)
    ensures (s[0] == t[0] && s[1] == t[1]) || (s[0] == t[1] && s[1] == t[0])
  {
    assert s == [s[0], s[1]];
    assert t == [t[0], t[1]];
    assert multiset(s) == multiset{s[0], s[1]};
    assert multiset(t) == multiset{t[0], t[1]};
  }

  /** The top card of a Pair is the card with the higher suit. */
  lemma PairTopCard(player: int, cs: seq<Card>)
    requires ValidCards(Pair, cs)
    ensures TopCard(HandValue(Pair, player, cs)) == Some(if cs[0].suit > cs[1].suit then cs[0] else cs[1])
  {
    var s := SortCards(cs);
    PairIff(cs);
    TwoPermutation(s, cs);
    assert CompareTo(s[0], s[1]) <= 0;
  }

  /** The top card of a Triple is one with the highest suit of the three. */
  lemma TripleTopCard(player: int, cs: seq<Card>)
    requires ValidCards(Triple, cs)
    ensures TopCard(HandValue(Triple, player, cs)).Some?
    ensures var t := TopCard(HandValue(Triple, player, cs)).value;
      t in cs && forall c :: c in cs ==> c.suit <= t.suit
  {
    var h := HandValue(Triple, player, cs);
    TopCardIsGreatest(h);
    var t := TopCard(h).value;
    TripleIff(cs);
    forall c | c in cs ensures c.suit <= t.suit {
      var k :| 0 <= k < 3 && cs[k] == c;
      var m :| 0 <= m < 3 && cs[m] == t;
      assert c.rank == t.rank;
      assert CompareTo(c, t) <= 0;
    }
  }

  /** The top card of a Full House is the highest card of its three of a kind. */
  lemma FullHouseTopCard(player: int, cs: seq<Card>)
    requires ValidCards(FullHouse, cs)
    ensures TopCard(HandValue(FullHouse, player, cs)).Some?
    ensures var t := TopCard(HandValue(FullHouse, player, cs)).value;
      t in cs && RankCount(cs, t.rank) == 3 &&
      forall c :: c in cs && c.rank == t.rank ==> CompareTo(c, t) <= 0
  {
    var s := SortCards(cs);
    var t := TopCard(HandValue(FullHouse, player, cs)).value;
    var ti := if FullHouseHigh(s) then 4 else 2;
    assert t == s[ti];
    PermutationMembers(s, cs);
    SortedRankCounts(cs, t.rank);
    RankCountFive(s, t.rank);
    forall c | c in cs && c.rank == t.rank ensures CompareTo(c, t) <= 0 {
      var k :| 0 <= k < 5 && s[k] == c;
      if k < ti {
        assert CompareTo(s[k], s[ti]) <= 0;
      }
    }
  }

  /** The top card of a Quad is the highest card of its four of a kind. */
  lemma QuadTopCard(player: int, cs: seq<Card>)
    requires ValidCards(Quad, cs) && Distinct(cs)
    ensures TopCard(HandValue(Quad, player, cs)).Some?
    ensures var t := TopCard(HandValue(Quad, player, cs)).value;
      t in cs && RankCount(cs, t.rank) >= 4 &&
      forall c :: c in cs && c.rank == t.rank ==> CompareTo(c, t) <= 0
  {
    var s := SortCards(cs);
    var t := TopCard(HandValue(Quad, player, cs)).value;
    PermutationMembers(s, cs);
    SortedRankCounts(cs, t.rank);
    RankCountFive(s, t.rank);
    if QuadLow(s) {
      assert t == s[3];
      DistinctPermutation(cs, s);
      QuadLowTop(s);
    } else {
      assert t == s[4];
      forall c | c in cs && c.rank == t.rank ensures CompareTo(c, t) <= 0 {
        var k :| 0 <= k < 5 && s[k] == c;
        if k < 4 {
          assert CompareTo(s[k], s[4]) <= 0;
        }
      }
    }
  }

  /** With four distinct cards of a kind first, the fourth is the highest of
      that rank: a fifth card of that rank would need a fifth suit. */
  lemma QuadLowTop(s: seq<Card>)
    requires |s| == 5 && Sorted(s) && Distinct(s) && QuadLow(s)
    ensures forall k :: 0 <= k < 5 && s[k].rank == s[3].rank ==> CompareTo(s[k], s[3]) <= 0
  {
    forall k | 0 <= k < 5 && s[k].rank == s[3].rank ensures CompareTo(s[k], s[3]) <= 0 {
      if k < 3 {
        assert CompareTo(s[k], s[3]) <= 0;
      } else if k == 4 {
        forall i | 0 <= i < 4 ensures s[i].suit < s[i + 1].suit {
          assert CompareTo(s[i], s[i + 1]) <= 0 && s[i] != s[i + 1];
        }
        assert false;
      }
    }
  }
}
