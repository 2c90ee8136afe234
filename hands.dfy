/** The Hand class and its eight subclasses as one class tagged with its shape.
    A hand owns its own copy of the cards; isValid sorts that copy in place and,
    for a Full House or a Quad, records in isLarger where the group lies. */
module Hands {
  import opened Wrappers
  import opened Cards
  import opened CardLists
  import opened HandRules

  /** Running isValid a second time leaves what the first run left. */
  lemma RefreshIdempotent(sh: Shape, cs: seq<Card>, was: bool)
    ensures Canon(sh, Canon(sh, cs)) == Canon(sh, cs)
    ensures LargerAfter(sh, Canon(sh, cs), LargerAfter(sh, cs, was)) == LargerAfter(sh, cs, was)
  {
    if sh != Single && |cs| == ShapeSize(sh) {
      var s := SortCards(cs);
      SortCardsIdempotent(cs);
      assert Canon(sh, s) == s;
      ValidSorted(sh, cs);
      if (sh == FullHouse || sh == Quad) && ValidCards(sh, cs) {
        assert LargerFlag(sh, s) == LargerFlag(sh, cs);
      }
    }
  }

  /** isValid only reorders the cards, so the hand means what it meant before. */
  lemma RefreshKeepsMeaning(sh: Shape, player: int, cs: seq<Card>)
    ensures multiset(Canon(sh, cs)) == multiset(cs) && |Canon(sh, cs)| == |cs|
    ensures ValidCards(sh, Canon(sh, cs)) == ValidCards(sh, cs)
    ensures TypeOf(HandValue(sh, player, Canon(sh, cs))) == TypeOf(HandValue(sh, player, cs))
    ensures TopCard(HandValue(sh, player, Canon(sh, cs))) == TopCard(HandValue(sh, player, cs))
  {
    ClassifyPermutation(sh, cs, Canon(sh, cs), player);
  }

  /** beats looks at (and so re-validates) the other hand when this hand is valid,
      the sizes agree, and either the types agree or the other is a Full House,
      whose getType runs isValid. */
  predicate ExaminesOther(h: HandValue, o: HandValue) {
    Valid(h) && |h.cards| == |o.cards| && (o.shape == FullHouse || TypeOf(h) == TypeOf(o))
  }

  /** beatType asks for the other hand's type when both hold five cards and this
      hand's type has a row in the priority chain. */
  predicate TypeChainExaminesOther(h: HandValue, o: HandValue) {
    |h.cards| == 5 && |o.cards| == 5 && o.shape == FullHouse &&
    TypeOf(h) in {Some(StraightFlush), Some(Quad), Some(FullHouse), Some(Flush)}
  }

  /** beats, once this hand is valid and the sizes agree: the top cards decide
      between hands of one type, beatType between hands of different types. */
  lemma BeatsCases(h: HandValue, o: HandValue)
    requires BeatsDefined(h, o) && Valid(h) && |h.cards| == |o.cards|
    ensures TypeOf(h) == TypeOf(o) ==> Valid(o)
    ensures HandRules.Beats(h, o) ==
      if TypeOf(h) == TypeOf(o) then TopsBeat(h.shape, TopCard(h).value, TopCard(o).value)
      else HandRules.BeatType(h, o)
  {
  }

  /** beatType looks only at the sizes and the types of the two hands. */
  lemma BeatTypeByTypes(h0: HandValue, o0: HandValue, h1: HandValue, o1: HandValue)
    requires |h1.cards| == |h0.cards| && |o1.cards| == |o0.cards|
    requires TypeOf(h1) == TypeOf(h0) && TypeOf(o1) == TypeOf(o0)
    ensures HandRules.BeatType(h1, o1) == HandRules.BeatType(h0, o0)
  {
  }

  class Hand {
    var cards: seq<Card>
    var isLarger: bool
    const shape: Shape
    const player: int

    /** Hand(player, cards): copies the cards one by one. */
    constructor (shape: Shape, player: int, cs: seq<Card>)
      ensures this.shape == shape && this.player == player
      ensures cards == cs && !isLarger
    {
      this.shape := shape;
      this.player := player;
      cards := [];
      isLarger := false;
      new;
      var i := 0;
      while i < |cs|
        invariant 0 <= i <= |cs|
        invariant cards == cs[..i] && !isLarger
      {
        cards := cards + [cs[i]];
        i := i + 1;
      }
    }

    function Value(): HandValue
      reads this
    {
      HandValue(shape, player, cards)
    }

    /** The state that one run of isValid leaves when started from cards c0 and flag l0. */
    predicate RefreshedFrom(c0: seq<Card>, l0: bool)
      reads this
    {
      cards == Canon(shape, c0) && isLarger == LargerAfter(shape, c0, l0)
    }

    /** isValid has already run, so running it again changes nothing. */
    predicate Settled()
      reads this
    {
      RefreshedFrom(cards, isLarger)
    }

    /** CardList.sort. */
    method Sort()
      modifies this`cards
      ensures cards == SortCards(old(cards))
    {
      cards := SortCards(cards);
    }

    /** The key loop of Straight, Flush and StraightFlush.isValid: are the keys of
        every adjacent pair one apart? */
    method KeysConsecutive() returns (ok: bool)
      requires |cards| == 5
      ensures ok == ConsecutiveKeys(cards)
    {
      var i := 0;
      while i < 4
        invariant 0 <= i <= 4
        invariant forall k :: 0 <= k < i ==> RankKey(cards[k]) + 1 == RankKey(cards[k + 1])
      {
        if (cards[i].rank + 11) % 13 + 1 != (cards[i + 1].rank + 11) % 13 {
          return false;
        }
        i := i + 1;
      }
      return true;
    }

    /** The suit loop of the same three tests: does every adjacent pair share its suit? */
    method SuitsAgree() returns (ok: bool)
      requires |cards| == 5
      ensures ok == SameSuit(cards)
    {
      var i := 0;
      while i < 4
        invariant 0 <= i <= 4
        invariant forall k :: 0 <= k < i ==> cards[k].suit == cards[k + 1].suit
      {
        if cards[i].suit != cards[i + 1].suit {
          return false;
        }
        i := i + 1;
      }
      return true;
    }

    /** isValid of the subclass for this shape: Single only counts its cards;
        every other shape checks the size, sorts, and tests the sorted cards. */
    method IsValid() returns (b: bool)
      modifies this
      ensures b == ValidCards(shape, old(cards))
      ensures RefreshedFrom(old(cards), old(isLarger))
    {
      if shape == Single {
        return |cards| == 1;
      }
      if |cards| != ShapeSize(shape) {
        return false;
      }
      Sort();
      b := TestSorted();
    }

    /** The part of isValid after sort(). */
    method TestSorted() returns (b: bool)
      requires shape != Single && |cards| == ShapeSize(shape)
      modifies this`isLarger
      ensures b == ShapeTest(shape, cards)
      ensures isLarger ==
        if shape == FullHouse && b then FullHouseHigh(cards)
        else if shape == Quad && b then !QuadLow(cards)
        else old(isLarger)
    {
      match shape {
        case Pair =>
          b := cards[0].rank == cards[1].rank;
        case Triple =>
          b := cards[0].rank == cards[1].rank && cards[1].rank == cards[2].rank;
        case FullHouse =>
          b := FullHouseTest();
        case Quad =>
          b := QuadTest();
        case _ =>
          b := RunTest();
      }
    }

    /** Straight, Flush and StraightFlush.isValid after sort(): the two early-return loops. */
    method RunTest() returns (b: bool)
      requires shape == Straight || shape == Flush || shape == StraightFlush
      requires |cards| == 5
      ensures b == ShapeTest(shape, cards)
    {
      if shape == Flush {
        var same := SuitsAgree();
        if !same {
          return false;
        }
        var run := KeysConsecutive();
        return !run;
      }
      var run := KeysConsecutive();
      if !run {
        return false;
      }
      var same := SuitsAgree();
      b := if shape == Straight then !same else same;
    }

    /** FullHouse.isValid after sort(): XXX YY or XX YYY, recording which in isLarger. */
    method FullHouseTest() returns (b: bool)
      requires |cards| == 5
      modifies this`isLarger
      ensures b == (FullHouseLow(cards) || FullHouseHigh(cards))
      ensures isLarger == if b then FullHouseHigh(cards) else old(isLarger)
    {
      b := false;
      if cards[0].rank == cards[1].rank && cards[1].rank == cards[2].rank {
        if cards[3].rank == cards[4].rank && cards[3].rank != cards[2].rank {
          isLarger := false;
          b := true;
        }
      } else if cards[2].rank == cards[3].rank && cards[3].rank == cards[4].rank {
        if cards[0].rank == cards[1].rank && cards[1].rank != cards[2].rank {
          isLarger := true;
          b := true;
        }
      }
    }

    /** Quad.isValid after sort(): the first four or the last four share a rank. */
    method QuadTest() returns (b: bool)
      requires |cards| == 5
      modifies this`isLarger
      ensures b == (QuadLow(cards) || QuadHigh(cards))
      ensures isLarger == if b then !QuadLow(cards) else old(isLarger)
    {
      b := false;
      if cards[0].rank == cards[1].rank && cards[1].rank == cards[2].rank && cards[2].rank == cards[3].rank {
        isLarger := false;
        b := true;
      } else if cards[1].rank == cards[2].rank && cards[2].rank == cards[3].rank && cards[3].rank == cards[4].rank {
        isLarger := true;
        b := true;
      }
    }

    /** getType; only FullHouse.getType runs isValid (and gives null when it fails). */
    method GetType() returns (t: Option<Shape>)
      modifies this
      ensures t == TypeOf(old(Value()))
      ensures if shape == FullHouse then RefreshedFrom(old(cards), old(isLarger)) else unchanged(this)
    {
      if shape == FullHouse {
        var v := IsValid();
        t := if v then Some(FullHouse) else None;
      } else {
        t := Some(shape);
      }
    }

    /** getTopCard, with the FullHouse and Quad overrides that read isLarger. */
    method GetTopCard() returns (c: Option<Card>)
      modifies this
      ensures c == TopCard(old(Value()))
      ensures RefreshedFrom(old(cards), old(isLarger))
    {
      ghost var c0 := cards;
      var v := IsValid();
      if !v {
        return None;
      }
      if shape == Single {
        SortCardsOfSorted(c0);
      } else {
        SortCardsIdempotent(c0);
      }
      Sort();
      var top := PickTop();
      c := Some(top);
    }

    /** The card getTopCard returns from the sorted cards: the last one, or the one
        isLarger points at. */
    method PickTop() returns (c: Card)
      requires |cards| == ShapeSize(shape)
      requires shape == FullHouse ==> isLarger == FullHouseHigh(cards)
      requires shape == Quad ==> isLarger == !QuadLow(cards)
      ensures c == TopOfSorted(shape, cards)
    {
      if shape == FullHouse {
        c := if isLarger then cards[4] else cards[2];
      } else if shape == Quad {
        c := if isLarger then cards[4] else cards[3];
      } else {
        c := cards[|cards| - 1];
      }
    }

    /** beatType: the five-card priority chain, as written. */
    method BeatType(other: Hand) returns (b: bool)
      modifies this, other
      ensures b == HandRules.BeatType(old(Value()), old(other.Value()))
      ensures if shape == FullHouse && |old(cards)| == 5 && |old(other.cards)| == 5
        then RefreshedFrom(old(cards), old(isLarger)) else cards == old(cards) && isLarger == old(isLarger)
      ensures other != this ==>
        if TypeChainExaminesOther(old(Value()), old(other.Value()))
        then other.RefreshedFrom(old(other.cards), old(other.isLarger))
        else other.cards == old(other.cards) && other.isLarger == old(other.isLarger)
    {
      ghost var h0, o0 := Value(), other.Value();
      if |cards| != 5 || |other.cards| != 5 {
        return false;
      }
      var t := GetType();
      if other == this {
        RefreshIdempotent(shape, h0.cards, old(isLarger));
        RefreshKeepsMeaning(shape, player, h0.cards);
      }
      ghost var o1 := other.Value();
      assert t == TypeOf(h0) && TypeOf(o1) == TypeOf(o0);
      if t == Some(StraightFlush) {
        var u := other.GetType();
        b := u != Some(StraightFlush);
      } else if t == Some(Quad) {
        var u := other.GetType();
        b := u != Some(StraightFlush) && u != Some(Quad);
      } else if t == Some(FullHouse) {
        var u := other.GetType();
        b := u != Some(Straight) || u != Some(Flush);
      } else if t == Some(Flush) {
        var u := other.GetType();
        b := u != Some(Straight);
      } else {
        b := false;
      }
    }

    /** beats, with the Flush override. */
    method Beats(other: Hand) returns (b: bool)
      requires BeatsDefined(Value(), other.Value())
      modifies this, other
      ensures b == HandRules.Beats(old(Value()), old(other.Value()))
      ensures RefreshedFrom(old(cards), old(isLarger))
      ensures other != this ==>
        if ExaminesOther(old(Value()), old(other.Value()))
        then other.RefreshedFrom(old(other.cards), old(other.isLarger))
        else other.cards == old(other.cards) && other.isLarger == old(other.isLarger)
    {
      ghost var h0, o0 := Value(), other.Value();
      var v := IsValid();
      RefreshKeepsMeaning(shape, player, h0.cards);
      if !v || |cards| != |other.cards| {
        return false;
      }
      RefreshIdempotent(shape, h0.cards, old(isLarger));
      BeatsCases(h0, o0);
      BeatTypeByTypes(h0, o0, Value(), other.Value());
      b := BeatsValid(other);
    }

    /** The rest of beats once this hand has passed isValid and the sizes agree:
        compare the types, then the top cards or the places in the priority chain. */
    method BeatsValid(other: Hand) returns (b: bool)
      requires Settled() && Valid(Value()) && |cards| == |other.cards|
      requires BeatsDefined(Value(), other.Value())
      modifies this, other
      ensures var h, o := old(Value()), old(other.Value());
        b == if TypeOf(h) == TypeOf(o) then TopsBeat(shape, TopCard(h).value, TopCard(o).value)
             else HandRules.BeatType(h, o)
      ensures cards == old(cards) && isLarger == old(isLarger)
      ensures other != this ==>
        if other.shape == FullHouse || TypeOf(old(Value())) == TypeOf(old(other.Value()))
        then other.RefreshedFrom(old(other.cards), old(other.isLarger))
        else other.cards == old(other.cards) && other.isLarger == old(other.isLarger)
    {
      ghost var o1, m1 := other.Value(), other.isLarger;
      var t := GetType();
      var u := other.GetType();
      if other != this {
        RefreshKeepsMeaning(other.shape, other.player, o1.cards);
        BeatTypeByTypes(old(Value()), o1, Value(), other.Value());
      }
      if t == u {
        b := CompareTops(other);
      } else {
        b := BeatType(other);
      }
      if other != this {
        RefreshIdempotent(other.shape, o1.cards, m1);
      }
    }

    /** The same-type branch of beats: compare the two top cards; Flush.beats
        compares the suits first and the rank keys only within one suit. */
    method CompareTops(other: Hand) returns (b: bool)
      requires Valid(Value()) && Valid(other.Value())
      modifies this, other
      ensures b == TopsBeat(shape, TopCard(old(Value())).value, TopCard(old(other.Value())).value)
      ensures RefreshedFrom(old(cards), old(isLarger))
      ensures other != this ==> other.RefreshedFrom(old(other.cards), old(other.isLarger))
    {
      ghost var h0, o0 := Value(), other.Value();
      ghost var l0, m0 := isLarger, other.isLarger;
      var a := GetTopCard();
      RefreshIdempotent(shape, h0.cards, l0);
      RefreshKeepsMeaning(shape, player, h0.cards);
      var c := other.GetTopCard();
      if other == this {
        RefreshIdempotent(shape, h0.cards, l0);
      }
      if shape == Flush {
        b := if a.value.suit == c.value.suit
          then RankKey(a.value) > RankKey(c.value)
          else a.value.suit > c.value.suit;
      } else {
        b := CompareTo(a.value, c.value) == 1;
      }
    }
  }
}
