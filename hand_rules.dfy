/** The hand classifier as values: the eight shapes (the Hand subclasses), each
    shape's isValid test, getType, getTopCard, beatType, beats, and composeHand.
    Every test is stated on the sorted list, as each isValid sorts its cards
    before looking at them. */
module HandRules {
  import opened Wrappers
  import opened Cards
  import opened CardLists

  datatype Shape = Single | Pair | Triple | Straight | Flush | FullHouse | Quad | StraightFlush

  /** The number of cards each shape's isValid asks for. */
  function ShapeSize(sh: Shape): nat {
    match sh
    case Single => 1
    case Pair => 2
    case Triple => 3
    case _ => 5
  }

  /** A hand: its shape, the index of the player who owns it, and its cards. */
  datatype HandValue = HandValue(shape: Shape, player: int, cards: seq<Card>)

  /** Every adjacent pair has rank keys one apart (the first loop of Straight.isValid). */
  predicate ConsecutiveKeys(s: seq<Card>) {
    forall i :: 0 <= i < |s| - 1 ==> RankKey(s[i]) + 1 == RankKey(s[i + 1])
  }

  /** Every adjacent pair shares its suit (the suit loop of Flush.isValid). */
  predicate SameSuit(s: seq<Card>) {
    forall i :: 0 <= i < |s| - 1 ==> s[i].suit == s[i + 1].suit
  }

  /** Sorted layout XXX YY. */
  predicate FullHouseLow(s: seq<Card>)
    requires |s| == 5
  {
    s[0].rank == s[1].rank && s[1].rank == s[2].rank &&
    s[3].rank == s[4].rank && s[3].rank != s[2].rank
  }

  /** Sorted layout XX YYY. */
  predicate FullHouseHigh(s: seq<Card>)
    requires |s| == 5
  {
    s[2].rank == s[3].rank && s[3].rank == s[4].rank &&
    s[0].rank == s[1].rank && s[1].rank != s[2].rank
  }

  /** The first four sorted cards share a rank. */
  predicate QuadLow(s: seq<Card>)
    requires |s| == 5
  {
    s[0].rank == s[1].rank && s[1].rank == s[2].rank && s[2].rank == s[3].rank
  }

  /** The last four sorted cards share a rank. */
  predicate QuadHigh(s: seq<Card>)
    requires |s| == 5
  {
    s[1].rank == s[2].rank && s[2].rank == s[3].rank && s[3].rank == s[4].rank
  }

  /** The test each isValid applies once its cards are sorted. */
  predicate ShapeTest(sh: Shape, s: seq<Card>)
    requires |s| == ShapeSize(sh)
  {
    match sh
    case Single => true
    case Pair => s[0].rank == s[1].rank
    case Triple => s[0].rank == s[1].rank && s[1].rank == s[2].rank
    case Straight => ConsecutiveKeys(s) && !SameSuit(s)
    case Flush => SameSuit(s) && !ConsecutiveKeys(s)
    case StraightFlush => ConsecutiveKeys(s) && SameSuit(s)
    case FullHouse => FullHouseLow(s) || FullHouseHigh(s)
    case Quad => QuadLow(s) || QuadHigh(s)
  }

  /** isValid of the subclass for shape sh. */
  predicate ValidCards(sh: Shape, cs: seq<Card>)
    ensures ValidCards(sh, cs) ==> |cs| == ShapeSize(sh)
  {
    |cs| == ShapeSize(sh) && ShapeTest(sh, SortCards(cs))
  }

  predicate Valid(h: HandValue) {
    ValidCards(h.shape, h.cards)
  }

  /** The isLarger flag that a successful FullHouse.isValid or Quad.isValid records. */
  function LargerFlag(sh: Shape, cs: seq<Card>): bool
    requires sh == FullHouse || sh == Quad
    requires |cs| == 5
  {
    var s := SortCards(cs);
    if sh == FullHouse then FullHouseHigh(s) else !QuadLow(s)
  }

  /** The card list after isValid: sorted when the size matches (Single never sorts). */
  function Canon(sh: Shape, cs: seq<Card>): seq<Card> {
    if sh != Single && |cs| == ShapeSize(sh) then SortCards(cs) else cs
  }

  /** The isLarger field after isValid: written only by a successful FullHouse or Quad test. */
  function LargerAfter(sh: Shape, cs: seq<Card>, was: bool): bool {
    if (sh == FullHouse || sh == Quad) && ValidCards(sh, cs) then LargerFlag(sh, cs) else was
  }

  /** getType; FullHouse.getType gives null for an invalid hand. */
  function TypeOf(h: HandValue): (t: Option<Shape>)
    ensures t.Some? ==> t.value == h.shape
    ensures Valid(h) ==> t == Some(h.shape)
    ensures t.None? ==> h.shape == FullHouse
  {
    if h.shape == FullHouse && !Valid(h) then None else Some(h.shape)
  }

  /** getType is null exactly for an invalid Full House: FullHouse.getType reports
      no type for it, and every other hand reports its own shape. */
  lemma TypeOfNullExactly(h: HandValue)
    ensures TypeOf(h).None? <==> h.shape == FullHouse && !Valid(h)
  {
  }

  /** The card getTopCard picks from the sorted cards: the last one, or for a Full
      House and a Quad the last card of the group that isLarger locates. */
  function TopOfSorted(sh: Shape, s: seq<Card>): (c: Card)
    requires |s| == ShapeSize(sh)
    ensures c in s
  {
    match sh
    case FullHouse => if FullHouseHigh(s) then s[4] else s[2]
    case Quad => if QuadLow(s) then s[3] else s[4]
    case _ => s[|s| - 1]
  }

  /** getTopCard, with the FullHouse and Quad overrides; null for an invalid hand. */
  function TopCard(h: HandValue): (c: Option<Card>)
    ensures c.Some? <==> Valid(h)
    ensures c.Some? ==> c.value in h.cards
  {
    if !Valid(h) then None
    else
      var s := SortCards(h.cards);
      assert TopOfSorted(h.shape, s) in multiset(s);
      Some(TopOfSorted(h.shape, s))
  }

  /** The priority chain of Hand.beatType on the two hands' types, as written: the
      Full House row is always true and the Flush row loses only to a Straight. */
  predicate TypeChain(t: Option<Shape>, u: Option<Shape>)
    ensures TypeChain(t, u) ==> t in {Some(StraightFlush), Some(Quad), Some(FullHouse), Some(Flush)}
    ensures t == Some(FullHouse) ==> TypeChain(t, u)
    ensures TypeChain(t, u) && u == Some(StraightFlush) ==> t == Some(FullHouse) || t == Some(Flush)
  {
    if t == Some(StraightFlush) then u != Some(StraightFlush)
    else if t == Some(Quad) then u != Some(StraightFlush) && u != Some(Quad)
    else if t == Some(FullHouse) then u != Some(Straight) || u != Some(Flush)
    else if t == Some(Flush) then u != Some(Straight)
    else false
  }

  /** Hand.beatType: the chain decides between two five-card hands. */
  predicate BeatType(h: HandValue, o: HandValue)
    ensures BeatType(h, o) ==> |h.cards| == 5 && |o.cards| == 5 && TypeOf(h).Some?
    ensures BeatType(h, o) ==> h.shape != Straight && h.shape != Single && h.shape != Pair && h.shape != Triple
  {
    |h.cards| == 5 && |o.cards| == 5 && TypeChain(TypeOf(h), TypeOf(o))
  }

  /** beats reads the other hand's top card only when both have the same type;
      an invalid other hand then has no top card. */
  predicate BeatsDefined(h: HandValue, o: HandValue) {
    Valid(h) && |h.cards| == |o.cards| && TypeOf(h) == TypeOf(o) ==> Valid(o)
  }

  /** How beats compares the top cards of two hands of one type: compareTo, except
      that Flush.beats looks at the suits first and at the rank keys only within one suit. */
  predicate TopsBeat(sh: Shape, a: Card, c: Card)
    ensures TopsBeat(sh, a, c) ==> a != c
    ensures sh != Flush ==>
      (TopsBeat(sh, a, c) <==> RankKey(a) > RankKey(c) || (RankKey(a) == RankKey(c) && a.suit > c.suit))
    ensures sh == Flush ==>
      (TopsBeat(sh, a, c) <==> a.suit > c.suit || (a.suit == c.suit && RankKey(a) > RankKey(c)))
  {
    if sh == Flush then
      if a.suit == c.suit then RankKey(a) > RankKey(c) else a.suit > c.suit
    else CompareTo(a, c) == 1
  }

  /** Hand.beats, with the Flush override. */
  function Beats(h: HandValue, o: HandValue): (b: bool)
    requires BeatsDefined(h, o)
    ensures b ==> Valid(h) && |h.cards| == |o.cards|
  {
    if Valid(h) && |h.cards| == |o.cards| then
      if TypeOf(h) == TypeOf(o) then TopsBeat(h.shape, TopCard(h).value, TopCard(o).value)
      else BeatType(h, o)
    else false
  }

  /** A shape test depends only on which cards are held, not on their order. */
  lemma ValidPermutation(sh: Shape, cs: seq<Card>, ds: seq<Card>)
    requires multiset(cs) == multiset(ds)
    ensures ValidCards(sh, cs) == ValidCards(sh, ds)
    ensures |cs| == |ds|
  {
    assert |cs| == |multiset(cs)| == |multiset(ds)| == |ds|;
    SortCardsOfPermutation(cs, ds);
  }

  /** Sorting, or any other reordering, does not change what a hand is. */
  lemma ClassifyPermutation(sh: Shape, cs: seq<Card>, ds: seq<Card>, player: int)
    requires multiset(cs) == multiset(ds)
    ensures ValidCards(sh, cs) == ValidCards(sh, ds)
    ensures TypeOf(HandValue(sh, player, cs)) == TypeOf(HandValue(sh, player, ds))
    ensures TopCard(HandValue(sh, player, cs)) == TopCard(HandValue(sh, player, ds))
  {
    ValidPermutation(sh, cs, ds);
    SortCardsOfPermutation(cs, ds);
  }

  /** A hand's shape test gives the same answer on its sorted cards. */
  lemma ValidSorted(sh: Shape, cs: seq<Card>)
    ensures ValidCards(sh, SortCards(cs)) == ValidCards(sh, cs)
  {
    SortCardsIdempotent(cs);
  }

  /** new X(player, cards), kept when its isValid holds; the hand then holds its
      cards as isValid left them (sorted). */
  function TryShape(sh: Shape, player: int, cs: seq<Card>): (r: Option<HandValue>)
    requires sh != Single
    ensures r.Some? <==> ValidCards(sh, cs)
    ensures r.Some? ==> r.value == HandValue(sh, player, SortCards(cs)) && Valid(r.value)
  {
    ValidSorted(sh, cs);
    if ValidCards(sh, cs) then Some(HandValue(sh, player, SortCards(cs))) else None
  }

  /** composeHand: a Single for one card, otherwise the first valid shape in the
      order Pair, Triple, then Straight, Flush, Full House, Quad, Straight Flush. */
  function Compose(player: int, cards: Option<seq<Card>>): (r: Option<HandValue>)
    ensures r.Some? ==> cards.Some? && Valid(r.value) && r.value.player == player
    ensures r.Some? ==> multiset(r.value.cards) == multiset(cards.value) && Sorted(r.value.cards)
    ensures r.Some? ==> ShapeSize(r.value.shape) == |cards.value|
  {
    match cards
    case None => None
    case Some(cs) =>
      if |cs| == 1 then Some(HandValue(Single, player, cs))
      else if |cs| == 2 then TryShape(Pair, player, cs)
      else if |cs| == 3 then TryShape(Triple, player, cs)
      else if |cs| == 5 then
        var straight := TryShape(Straight, player, cs);
        if straight.Some? then straight else
        var flush := TryShape(Flush, player, cs);
        if flush.Some? then flush else
        var fullHouse := TryShape(FullHouse, player, cs);
        if fullHouse.Some? then fullHouse else
        var quad := TryShape(Quad, player, cs);
        if quad.Some? then quad else
        TryShape(StraightFlush, player, cs)
      else None
  }

  /** composeHand finds a hand whenever the cards form some shape. */
  lemma ComposeComplete(player: int, sh: Shape, cs: seq<Card>)
    requires ValidCards(sh, cs)
    ensures Compose(player, Some(cs)).Some?
  {
    if |cs| == 5 && sh !in {Straight, Flush, FullHouse, Quad} {
      assert sh == StraightFlush;
    }
  }
}
