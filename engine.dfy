/** The turn engine of BigTwoClient as values: what addValidMove decides, what makeMove
    does to the table, the players' cards and currentIdx, and how start sets up a game. */
module Engine {
  import opened Wrappers
  import opened Cards
  import opened CardLists
  import opened HandRules
  import opened Deck

  /** The hands on the table (oldest first), the cards of the four players, and
      currentIdx, the index of the player whose turn it is. */
  datatype GameState = GameState(table: seq<HandValue>, players: seq<seq<Card>>, current: int)

  /** What addValidMove makes of a selection: an illegal move, an accepted pass, or
      an accepted hand that goes on the table. */
  datatype Outcome = Reject | Pass | Play(hand: HandValue)

  /** Four players who all still hold cards, and a current player. */
  predicate InGame(g: GameState) {
    |g.players| == 4 && 0 <= g.current < 4 &&
    forall i :: 0 <= i < 4 ==> g.players[i] != []
  }

  /** Only valid hands, each owned by one of the four players. */
  predicate LawfulTable(table: seq<HandValue>) {
    forall k :: 0 <= k < |table| ==> Valid(table[k]) && 0 <= table[k].player < 4
  }

  /** A game in progress. */
  predicate Playing(g: GameState) {
    InGame(g) && LawfulTable(g.table)
  }

  /** The state at the end of a game: makeMove sets currentIdx to -1 and
      removeAllCards empties the table and every player's cards. */
  predicate Ended(g: GameState) {
    g.table == [] && g.players == [[], [], [], []] && g.current == -1
  }

  function Last(table: seq<HandValue>): HandValue
    requires table != []
  {
    table[|table| - 1]
  }

  /** addValidMove's legality rules. newHand is composeHand's hand for the current
      player; who owns the last hand on the table decides which rule applies. */
  function Judge(g: GameState, selected: Option<seq<Card>>): (r: Outcome)
    requires g.table != [] ==> Valid(Last(g.table))
    ensures r.Play? ==> Compose(g.current, selected) == Some(r.hand)
    ensures r.Pass? ==> selected.None? && g.table != [] && Last(g.table).player != g.current
  {
    var newHand := Compose(g.current, selected);
    if g.table == [] then
      if newHand.Some? && ThreeOfDiamonds in newHand.value.cards then Play(newHand.value) else Reject
    else if Last(g.table).player == g.current then
      if newHand.Some? then Play(newHand.value) else Reject
    else if selected.None? then Pass
    else if newHand.Some? && Beats(newHand.value, Last(g.table)) then Play(newHand.value)
    else Reject
  }

  /** An accepted hand is added to the table and its cards leave the current player. */
  function Apply(g: GameState, out: Outcome): (r: GameState)
    requires 0 <= g.current < |g.players|
    ensures |r.players| == |g.players| && r.current == g.current
    ensures out.Play? ==> r.table == g.table + [out.hand]
    ensures !out.Play? ==> r == g
  {
    match out
    case Play(h) =>
      g.(table := g.table + [h], players := g.players[g.current := RemoveCards(g.players[g.current], h.cards)])
    case _ => g
  }

  /** endOfGame: some player has no cards left. */
  predicate EndOfGame(players: seq<seq<Card>>)
    requires |players| == 4
  {
    |players[0]| == 0 || |players[1]| == 0 || |players[2]| == 0 || |players[3]| == 0
  }

  /** removeAllCards. */
  function RemoveAllCards(g: GameState): (r: GameState)
    ensures r.table == [] && r.current == g.current
    ensures |r.players| == 4 && forall i :: 0 <= i < 4 ==> r.players[i] == []
  {
    g.(table := [], players := [[], [], [], []])
  }

  /** Every index of a selection points into a list of n cards. */
  predicate IndicesIn(cardIdx: Option<seq<int>>, n: int) {
    cardIdx.Some? ==> forall k :: 0 <= k < |cardIdx.value| ==> 0 <= cardIdx.value[k] < n
  }

  /** CardGamePlayer.play: no indices is a pass (null), otherwise the cards at those indices. */
  function Selection(cards: seq<Card>, cardIdx: Option<seq<int>>): (r: Option<seq<Card>>)
    requires IndicesIn(cardIdx, |cards|)
    ensures r.Some? <==> cardIdx.Some?
    ensures r.Some? ==> |r.value| == |cardIdx.value|
    ensures r.Some? ==> forall k :: 0 <= k < |cardIdx.value| ==> r.value[k] == cards[cardIdx.value[k]]
  {
    match cardIdx
    case None => None
    case Some(idx) => Some(Pick(cards, idx))
  }

  /** What a makeMove call needs: the mover is the current player (the callers pass
      the active player), the indices point into that player's cards, and the last
      hand on the table is valid. */
  predicate CanMove(g: GameState, playerID: int, cardIdx: Option<seq<int>>) {
    |g.players| == 4 && 0 <= g.current < 4 && playerID == g.current &&
    IndicesIn(cardIdx, |g.players[playerID]|) &&
    (g.table != [] ==> Valid(Last(g.table)))
  }

  /** What makeMove does with addValidMove's verdict: nothing for an illegal move;
      otherwise apply it, then pass the turn on or, when some player has run out of
      cards, end the game (currentIdx -1, removeAllCards). */
  function Proceed(g: GameState, out: Outcome): (r: GameState)
    requires |g.players| == 4 && 0 <= g.current < 4
    ensures out.Reject? ==> r == g
    ensures !out.Reject? ==> r.current == -1 || r.current == (g.current + 1) % 4
  {
    if out.Reject? then g else NextTurn(Apply(g, out))
  }

  /** After an accepted move: the next player moves, or, when some player has run
      out of cards, the game ends. */
  function NextTurn(g: GameState): (r: GameState)
    requires |g.players| == 4
    ensures r.current == -1 <==> EndOfGame(g.players)
    ensures r.current != -1 ==> r.table == g.table && r.players == g.players && r.current == (g.current + 1) % 4
    ensures r.current == -1 ==> Ended(r)
  {
    if !EndOfGame(g.players) then g.(current := (g.current + 1) % 4)
    else RemoveAllCards(g.(current := -1))
  }

  /** makeMove: the current player's selection, judged by addValidMove. */
  function MakeMove(g: GameState, playerID: int, cardIdx: Option<seq<int>>): (r: GameState)
    requires CanMove(g, playerID, cardIdx)
    ensures r == g || r.current == -1 || r.current == (g.current + 1) % 4
  {
    Proceed(g, Judge(g, Selection(g.players[playerID], cardIdx)))
  }

  /** The cards dealCards gives player i: deck positions i, i + 4, ..., i + 48. */
  function DealtTo(deck: seq<Card>, i: int): (r: seq<Card>)
    requires |deck| >= 52 && 0 <= i < 4
    ensures |r| == 13
  {
    seq(13, j requires 0 <= j < 13 => deck[i + 4 * j])
  }

  /** dealCards: every player receives its thirteen cards and sorts its hand. */
  function DealCards(players: seq<seq<Card>>, deck: seq<Card>): (r: seq<seq<Card>>)
    requires |players| == 4 && |deck| >= 52
    ensures |r| == 4
    ensures forall i :: 0 <= i < 4 ==> Sorted(r[i]) && |r[i]| == |players[i]| + 13
    ensures forall i :: 0 <= i < 4 ==> multiset(r[i]) == multiset(players[i]) + multiset(DealtTo(deck, i))
  {
    seq(4, i requires 0 <= i < 4 => SortCards(players[i] + DealtTo(deck, i)))
  }

  /** findBeginner: the first player holding the 3 of diamonds; currentIdx is left
      as it was when nobody holds it. */
  function Beginner(players: seq<seq<Card>>, current: int): (b: int)
    requires |players| == 4
    ensures (exists i :: 0 <= i < 4 && ThreeOfDiamonds in players[i]) ==>
      0 <= b < 4 && ThreeOfDiamonds in players[b] && forall k :: 0 <= k < b ==> ThreeOfDiamonds !in players[k]
    ensures (forall i :: 0 <= i < 4 ==> ThreeOfDiamonds !in players[i]) ==> b == current
  {
    if ThreeOfDiamonds in players[0] then 0
    else if ThreeOfDiamonds in players[1] then 1
    else if ThreeOfDiamonds in players[2] then 2
    else if ThreeOfDiamonds in players[3] then 3
    else current
  }

  /** start: clear the table and the players, deal the deck, find the beginner. */
  function Start(g: GameState, deck: seq<Card>): (r: GameState)
    requires |g.players| == 4 && |deck| >= 52
    ensures r.table == [] && |r.players| == 4
    ensures forall i :: 0 <= i < 4 ==>
      Sorted(r.players[i]) && |r.players[i]| == 13 && multiset(r.players[i]) == multiset(DealtTo(deck, i))
    ensures (exists i :: 0 <= i < 4 && ThreeOfDiamonds in r.players[i]) ==>
      0 <= r.current < 4 && ThreeOfDiamonds in r.players[r.current]
  {
    var players := DealCards(RemoveAllCards(g).players, deck);
    GameState([], players, Beginner(players, g.current))
  }

  // ----- the legality rules -----

  /** On an empty table a move is legal exactly when it forms a hand holding the
      3 of diamonds; a pass is never legal there. */
  lemma EmptyTableRule(g: GameState, selected: Option<seq<Card>>)
    requires g.table == []
    ensures Judge(g, selected) != Pass
    ensures Judge(g, selected).Play? <==>
      Compose(g.current, selected).Some? && ThreeOfDiamonds in selected.value
    ensures selected.None? ==> Judge(g, selected) == Reject
  {
    var h := Compose(g.current, selected);
    if h.Some? {
      PermutationMembers(h.value.cards, selected.value);
    }
  }

  /** When the current player owns the last hand on the table (everybody else has
      passed), any valid hand is legal and a pass or an invalid selection is not. */
  lemma OwnerRule(g: GameState, selected: Option<seq<Card>>)
    requires g.table != [] && Valid(Last(g.table)) && Last(g.table).player == g.current
    ensures Judge(g, selected) != Pass
    ensures Judge(g, selected).Play? <==> Compose(g.current, selected).Some?
    ensures selected.None? ==> Judge(g, selected) == Reject
  {
  }

  /** Otherwise a pass is legal and leaves the table as it is, and a hand is legal
      exactly when it beats the last hand on the table. */
  lemma OtherPlayerRule(g: GameState, selected: Option<seq<Card>>)
    requires g.table != [] && Valid(Last(g.table)) && Last(g.table).player != g.current
    ensures selected.None? ==> Judge(g, selected) == Pass
    ensures selected.Some? ==> Judge(g, selected) != Pass
    ensures selected.Some? ==>
      (Judge(g, selected).Play? <==>
        Compose(g.current, selected).Some? && Beats(Compose(g.current, selected).value, Last(g.table)))
  {
  }

  /** The hand an accepted move puts down is the current player's hand made of the
      selected cards, and it is valid. */
  lemma PlayedHand(g: GameState, selected: Option<seq<Card>>)
    requires g.table != [] ==> Valid(Last(g.table))
    requires Judge(g, selected).Play?
    ensures var h := Judge(g, selected).hand;
      selected.Some? && Valid(h) && h.player == g.current &&
      multiset(h.cards) == multiset(selected.value) && Sorted(h.cards)
  {
  }

  // ----- what makeMove does -----

  /** An illegal move changes nothing: not the table, not the cards, not the turn. */
  lemma RejectedMoveChangesNothing(g: GameState, playerID: int, cardIdx: Option<seq<int>>)
    requires CanMove(g, playerID, cardIdx)
    requires Judge(g, Selection(g.players[playerID], cardIdx)) == Reject
    ensures MakeMove(g, playerID, cardIdx) == g
  {
  }

  /** An accepted pass during a game changes only the turn, which goes to the next player. */
  lemma PassMovesTheTurn(g: GameState)
    requires InGame(g)
    ensures Proceed(g, Pass) == g.(current := (g.current + 1) % 4)
  {
    assert g.players[0] != [] && g.players[1] != [] && g.players[2] != [] && g.players[3] != [];
  }

  /** Giving the current player a non-empty list of cards leaves nobody without
      cards, whoever moves next. */
  lemma NobodyRunsOut(g: GameState, left: seq<Card>, next: int)
    requires InGame(g) && left != [] && 0 <= next < 4
    ensures !EndOfGame(g.players[g.current := left])
    ensures InGame(g.(players := g.players[g.current := left], current := next))
  {
  }

  /** A hand that empties the current player's cards ends the game. */
  lemma LastCardsEndTheGame(g: GameState, h: HandValue)
    requires InGame(g) && RemoveCards(g.players[g.current], h.cards) == []
    ensures Ended(Proceed(g, Play(h)))
  {
    var a := Apply(g, Play(h));
    assert a.players == g.players[g.current := []];
    assert |a.players[g.current]| == 0;
  }

  /** Any other accepted hand goes on the table, its cards leave the current player,
      and the turn passes to the next player. */
  lemma PlayedHandStays(g: GameState, h: HandValue)
    requires InGame(g)
    requires RemoveCards(g.players[g.current], h.cards) != []
    ensures var left := RemoveCards(g.players[g.current], h.cards);
      Proceed(g, Play(h)) == GameState(g.table + [h], g.players[g.current := left], (g.current + 1) % 4)
  {
    NobodyRunsOut(g, RemoveCards(g.players[g.current], h.cards), 0);
  }

  /** An accepted hand goes on the table and its cards leave the current player (the
      other players keep theirs); then either the turn passes to the next player, or
      the player has run out of cards and the game ends with everything cleared. */
  lemma PlayedHandEffect(g: GameState, h: HandValue)
    requires InGame(g)
    ensures var left := RemoveCards(g.players[g.current], h.cards);
      var r := Proceed(g, Play(h));
      if left == [] then Ended(r)
      else r == GameState(g.table + [h], g.players[g.current := left], (g.current + 1) % 4)
  {
    if RemoveCards(g.players[g.current], h.cards) == [] {
      LastCardsEndTheGame(g, h);
    } else {
      PlayedHandStays(g, h);
    }
  }

  /** The cards of an accepted hand come out of the current player's cards: the
      player holds exactly the rest, so no card is created or lost. The indices are
      increasing, as every selection from the table is (Selection.SelectedIndicesIncreasing);
      with a repeated index the hand would hold one card twice. */
  lemma PlayConservesCards(g: GameState, playerID: int, idx: seq<int>)
    requires CanMove(g, playerID, Some(idx)) && IncreasingWithin(idx, |g.players[playerID]|)
    requires Judge(g, Selection(g.players[playerID], Some(idx))).Play?
    ensures var h := Judge(g, Selection(g.players[playerID], Some(idx))).hand;
      var left := RemoveCards(g.players[g.current], h.cards);
      multiset(left) + multiset(h.cards) == multiset(g.players[g.current]) &&
      |left| == |g.players[g.current]| - |h.cards|
  {
    var s := g.players[playerID];
    var h := Judge(g, Selection(s, Some(idx))).hand;
    PlayedHand(g, Selection(s, Some(idx)));
    PickSubMultiset(s, idx);
    assert multiset(h.cards) <= multiset(s);
    RemoveCardsSize(s, h.cards);
  }

  /** endOfGame: the game is over exactly when some player holds no cards. */
  lemma EndOfGameMeansSomeoneIsOut(players: seq<seq<Card>>)
    requires |players| == 4
    ensures EndOfGame(players) <==> exists i :: 0 <= i < 4 && players[i] == []
  {
  }

  /** Putting a hand down touches only the current player's cards, and takes away
      exactly the cards of the hand. */
  lemma ApplyEffect(g: GameState, out: Outcome)
    requires 0 <= g.current < |g.players|
    ensures forall i :: 0 <= i < |g.players| && i != g.current ==> Apply(g, out).players[i] == g.players[i]
    ensures out.Play? ==>
      multiset(Apply(g, out).players[g.current]) == multiset(g.players[g.current]) - multiset(out.hand.cards)
  {
  }

  /** No player ever gains cards by a move. */
  lemma MoveNeverAddsCards(g: GameState, playerID: int, cardIdx: Option<seq<int>>)
    requires CanMove(g, playerID, cardIdx)
    ensures var r := MakeMove(g, playerID, cardIdx);
      |r.players| == 4 && forall i :: 0 <= i < 4 ==> multiset(r.players[i]) <= multiset(g.players[i])
  {
    var out := Judge(g, Selection(g.players[playerID], cardIdx));
    ProceedNeverAddsCards(g, out);
    assert MakeMove(g, playerID, cardIdx) == Proceed(g, out);
  }

  /** Whatever the verdict, no player gains cards. */
  lemma ProceedNeverAddsCards(g: GameState, out: Outcome)
    requires |g.players| == 4 && 0 <= g.current < 4
    ensures var r := Proceed(g, out);
      |r.players| == 4 && forall i :: 0 <= i < 4 ==> multiset(r.players[i]) <= multiset(g.players[i])
  {
    var a := Apply(g, out);
    ApplyEffect(g, out);
    assert forall i :: 0 <= i < 4 ==> multiset(a.players[i]) <= multiset(g.players[i]);
    if !out.Reject? && EndOfGame(a.players) {
      assert Proceed(g, out).players == [[], [], [], []];
    }
  }

  /** A move keeps every player's cards sorted, as dealCards leaves them: removeCards
      keeps the remaining cards in order. */
  lemma MakeMoveKeepsHandsSorted(g: GameState, playerID: int, cardIdx: Option<seq<int>>)
    requires CanMove(g, playerID, cardIdx)
    requires forall i :: 0 <= i < 4 ==> Sorted(g.players[i])
    ensures var r := MakeMove(g, playerID, cardIdx); forall i :: 0 <= i < 4 ==> Sorted(r.players[i])
  {
    var out := Judge(g, Selection(g.players[playerID], cardIdx));
    ApplyKeepsHandsSorted(g, out);
    assert MakeMove(g, playerID, cardIdx) == Proceed(g, out);
  }

  /** Putting a hand down keeps every player's cards sorted. */
  lemma ApplyKeepsHandsSorted(g: GameState, out: Outcome)
    requires |g.players| == 4 && 0 <= g.current < 4
    requires forall i :: 0 <= i < 4 ==> Sorted(g.players[i])
    ensures forall i :: 0 <= i < 4 ==> Sorted(Apply(g, out).players[i])
  {
    if out.Play? {
      RemoveCardsSorted(g.players[g.current], out.hand.cards);
    }
  }

  /** A valid hand of one of the players keeps the table lawful. */
  lemma LawfulTableGrows(table: seq<HandValue>, h: HandValue)
    requires LawfulTable(table) && Valid(h) && 0 <= h.player < 4
    ensures LawfulTable(table + [h])
  {
    forall k | 0 <= k < |table + [h]| ensures Valid((table + [h])[k]) && 0 <= (table + [h])[k].player < 4 {
      if k < |table| {
        assert (table + [h])[k] == table[k];
      }
    }
  }

  /** Proceeding with a verdict keeps a game in progress, or ends it, as long as an
      accepted hand is a valid hand of the current player. */
  lemma ProceedKeepsPlaying(g: GameState, out: Outcome)
    requires Playing(g)
    requires out.Play? ==> Valid(out.hand) && out.hand.player == g.current
    ensures var r := Proceed(g, out); Playing(r) || Ended(r)
  {
    if out.Play? {
      PlayedHandEffect(g, out.hand);
      LawfulTableGrows(g.table, out.hand);
      var left := RemoveCards(g.players[g.current], out.hand.cards);
      if left != [] {
        NobodyRunsOut(g, left, (g.current + 1) % 4);
      }
    } else if out.Pass? {
      PassMovesTheTurn(g);
    }
  }

  /** A move keeps a game in progress, or ends it. */
  lemma MakeMoveKeepsPlaying(g: GameState, playerID: int, cardIdx: Option<seq<int>>)
    requires Playing(g) && CanMove(g, playerID, cardIdx)
    ensures var r := MakeMove(g, playerID, cardIdx); Playing(r) || Ended(r)
  {
    var selected := Selection(g.players[playerID], cardIdx);
    var out := Judge(g, selected);
    if out.Play? {
      PlayedHand(g, selected);
    }
    ProceedKeepsPlaying(g, out);
  }

  /** During a game, a pass by a player who does not own the last hand moves the
      turn on and changes nothing else. */
  lemma PassByOtherPlayer(g: GameState)
    requires Playing(g) && g.table != [] && Last(g.table).player != g.current
    ensures CanMove(g, g.current, None)
    ensures MakeMove(g, g.current, None) == g.(current := (g.current + 1) % 4)
  {
    OtherPlayerRule(g, None);
    PassMovesTheTurn(g);
  }

  /** Going round the table from seat q: the three seats after q are not q, and the
      one after them is q again. */
  lemma RoundTheTable(q: int)
    requires 0 <= q < 4
    ensures (q + 1) % 4 != q && (q + 2) % 4 != q && (q + 3) % 4 != q
    ensures ((q + 1) % 4 + 1) % 4 == (q + 2) % 4 && ((q + 2) % 4 + 1) % 4 == (q + 3) % 4
    ensures ((q + 3) % 4 + 1) % 4 == q
  {
  }

  /** When the three other players pass in turn, the lead comes back to the owner q of
      the last hand, with the table and everyone's cards as they were; q cannot pass then. */
  lemma ThreePassesReturnTheLead(g: GameState, q: int)
    requires Playing(g) && g.table != [] && q == Last(g.table).player && g.current == (q + 1) % 4
    ensures CanMove(g, g.current, None)
    ensures MakeMove(g, g.current, None) == g.(current := (q + 2) % 4)
    ensures CanMove(g.(current := (q + 2) % 4), (q + 2) % 4, None)
    ensures MakeMove(g.(current := (q + 2) % 4), (q + 2) % 4, None) == g.(current := (q + 3) % 4)
    ensures CanMove(g.(current := (q + 3) % 4), (q + 3) % 4, None)
    ensures MakeMove(g.(current := (q + 3) % 4), (q + 3) % 4, None) == g.(current := q)
    ensures Judge(g.(current := q), None) == Reject
  {
    RoundTheTable(q);
    PassByOtherPlayer(g);
    PassByOtherPlayer(g.(current := (q + 2) % 4));
    PassByOtherPlayer(g.(current := (q + 3) % 4));
    OwnerRule(g.(current := q), None);
  }

  // ----- setting up a game -----

  /** findBeginner picks a player holding the 3 of diamonds, the first one, whenever
      anybody holds it. */
  lemma BeginnerHoldsThreeOfDiamonds(players: seq<seq<Card>>, current: int, i: int)
    requires |players| == 4 && 0 <= i < 4 && ThreeOfDiamonds in players[i]
    ensures var b := Beginner(players, current);
      0 <= b <= i && ThreeOfDiamonds in players[b] &&
      forall k :: 0 <= k < b ==> ThreeOfDiamonds !in players[k]
  {
  }

  /** Position k of the deck goes to player k mod 4, as its (k div 4)-th card. */
  lemma DealtPosition(deck: seq<Card>, k: int)
    requires |deck| >= 52 && 0 <= k < 52
    ensures 0 <= k / 4 < 13 && DealtTo(deck, k % 4)[k / 4] == deck[k]
  {
    assert k == k % 4 + 4 * (k / 4);
  }

  /** Dealing to players without cards gives each exactly its dealt cards, sorted. */
  lemma DealToEmptyHands(deck: seq<Card>, i: int)
    requires |deck| >= 52 && 0 <= i < 4
    ensures DealCards([[], [], [], []], deck)[i] == SortCards(DealtTo(deck, i))
  {
    var empty: seq<seq<Card>> := [[], [], [], []];
    assert empty[i] == [];
    assert empty[i] + DealtTo(deck, i) == DealtTo(deck, i);
  }

  /** start leaves an empty table, and each player with exactly its dealt cards, sorted. */
  lemma StartDeals(g: GameState, deck: seq<Card>)
    requires |g.players| == 4 && |deck| >= 52
    ensures Start(g, deck).table == []
    ensures forall i :: 0 <= i < 4 ==> Start(g, deck).players[i] == SortCards(DealtTo(deck, i))
  {
    forall i | 0 <= i < 4 ensures Start(g, deck).players[i] == SortCards(DealtTo(deck, i)) {
      DealToEmptyHands(deck, i);
    }
  }

  /** A shuffled full deck deals the 3 of diamonds to some player. */
  lemma ThreeOfDiamondsIsDealt(deck: seq<Card>) returns (i: int)
    requires multiset(deck) == multiset(FullDeck())
    ensures |deck| == 52
    ensures 0 <= i < 4 && ThreeOfDiamonds in DealtTo(deck, i)
  {
    assert |deck| == |multiset(deck)| == |multiset(FullDeck())| == 52;
    DeckHoldsEveryCardOnce(ThreeOfDiamonds);
    assert ThreeOfDiamonds in multiset(deck);
    var k :| 0 <= k < |deck| && deck[k] == ThreeOfDiamonds;
    DealtPosition(deck, k);
    i := k % 4;
  }

  /** Starting with a shuffled full deck: the table is empty, every player holds
      thirteen sorted cards, and the first to move holds the 3 of diamonds. */
  lemma StartWithFullDeck(g: GameState, deck: seq<Card>)
    requires |g.players| == 4 && multiset(deck) == multiset(FullDeck())
    ensures |deck| == 52
    ensures var s := Start(g, deck);
      Playing(s) && s.table == [] &&
      (forall i :: 0 <= i < 4 ==> |s.players[i]| == 13 && Sorted(s.players[i])) &&
      ThreeOfDiamonds in s.players[s.current]
  {
    var i := ThreeOfDiamondsIsDealt(deck);
    StartDeals(g, deck);
    var s := Start(g, deck);
    PermutationMembers(s.players[i], DealtTo(deck, i));
    BeginnerHoldsThreeOfDiamonds(s.players, g.current, i);
    assert forall j :: 0 <= j < 4 ==> |s.players[j]| == 13 && Sorted(s.players[j]) && s.players[j] != [];
  }
}
