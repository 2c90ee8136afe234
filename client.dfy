/** BigTwoClient's game logic as a class: the hands on the table, the four players'
    cards and currentIdx, changed in place by addValidMove, makeMove and start, and
    proved against the functions of the Engine module. */
module Client {
  import opened Wrappers
  import opened Cards
  import opened CardLists
  import opened HandRules
  import opened Hands
  import opened Engine

  /** The values of a list of hands. */
  ghost function Values(hs: seq<Hand>): (vs: seq<HandValue>)
    reads hs
    ensures |vs| == |hs|
    ensures forall k :: 0 <= k < |hs| ==> vs[k] == hs[k].Value()
  {
    if hs == [] then [] else Values(hs[..|hs| - 1]) + [hs[|hs| - 1].Value()]
  }

  /** Values of a list with one more hand. */
  lemma ValuesAppend(hs: seq<Hand>, h: Hand)
    ensures Values(hs + [h]) == Values(hs) + [h.Value()]
  {
    assert (hs + [h])[..|hs|] == hs;
  }

  /** The values of a list of hands are fixed by the value of each hand. */
  lemma ValuesByElements(hs: seq<Hand>, vs: seq<HandValue>)
    requires |hs| == |vs| && forall k :: 0 <= k < |hs| ==> hs[k].Value() == vs[k]
    ensures Values(hs) == vs
  {
  }

  /** Every hand is valid and as its isValid left it. */
  ghost predicate AllSettled(hs: seq<Hand>)
    reads hs
  {
    forall k :: 0 <= k < |hs| ==> hs[k].Settled() && HandRules.Valid(hs[k].Value())
  }

  lemma AllSettledAppend(hs: seq<Hand>, h: Hand)
    requires AllSettled(hs) && h.Settled() && HandRules.Valid(h.Value())
    ensures AllSettled(hs + [h])
  {
    assert forall k :: 0 <= k < |hs| ==> (hs + [h])[k] == hs[k];
  }

  /** new X(player, cards) followed by isValid, for one of the shapes other than Single:
      the hand when the test holds, null otherwise. */
  method TryHand(sh: Shape, player: int, cs: seq<Card>) returns (h: Hand?)
    requires sh != Single
    ensures h == null <==> TryShape(sh, player, cs).None?
    ensures h != null ==> fresh(h) && h.Value() == TryShape(sh, player, cs).value && h.Settled()
  {
    var hand := new Hand(sh, player, cs);
    var v := hand.IsValid();
    RefreshIdempotent(sh, cs, false);
    if v {
      h := hand;
    } else {
      h := null;
    }
  }

  /** composeHand: a Single for one card, otherwise the first shape whose isValid holds. */
  method ComposeHand(player: int, cards: Option<seq<Card>>) returns (h: Hand?)
    ensures h == null <==> Compose(player, cards).None?
    ensures h != null ==> fresh(h) && h.Value() == Compose(player, cards).value && h.Settled()
  {
    if cards.None? {
      return null;
    }
    var cs := cards.value;
    if |cs| == 1 {
      h := new Hand(Single, player, cs);
    } else if |cs| == 2 {
      h := TryHand(Pair, player, cs);
    } else if |cs| == 3 {
      h := TryHand(Triple, player, cs);
    } else if |cs| == 5 {
      h := TryHand(Straight, player, cs);
      if h != null {
        return;
      }
      h := TryHand(Flush, player, cs);
      if h != null {
        return;
      }
      h := TryHand(FullHouse, player, cs);
      if h != null {
        return;
      }
      h := TryHand(Quad, player, cs);
      if h != null {
        return;
      }
      h := TryHand(StraightFlush, player, cs);
    } else {
      h := null;
    }
  }

  class BigTwoClient {
    var handsOnTable: seq<Hand>
    var playerCards: seq<seq<Card>>
    var currentIdx: int
    var deck: seq<Card>
    /** The index of the local player. */
    const playerID: int

    /** The game as a value. */
    ghost function View(): GameState
      reads this, handsOnTable
    {
      GameState(Values(handsOnTable), playerCards, currentIdx)
    }

    /** Four players, and only valid hands on the table, each as its isValid left it. */
    ghost predicate Valid()
      reads this, handsOnTable
    {
      |playerCards| == 4 && AllSettled(handsOnTable)
    }

    /** The client before any game: four players without cards and an empty table. */
    constructor (playerID: int)
      ensures Valid() && this.playerID == playerID
      ensures View() == GameState([], [[], [], [], []], 0) && deck == []
    {
      this.playerID := playerID;
      handsOnTable := [];
      playerCards := [[], [], [], []];
      currentIdx := 0;
      deck := [];
    }

    /** endOfGame. */
    method EndOfGame() returns (b: bool)
      requires |playerCards| == 4
      ensures b == Engine.EndOfGame(playerCards)
    {
      b := |playerCards[0]| == 0 || |playerCards[1]| == 0 || |playerCards[2]| == 0 || |playerCards[3]| == 0;
    }

    /** removeAllCards: a new empty table, and every player's cards removed. */
    method RemoveAllCards()
      requires |playerCards| == 4
      modifies this
      ensures handsOnTable == [] && playerCards == [[], [], [], []]
      ensures currentIdx == old(currentIdx) && deck == old(deck)
    {
      handsOnTable := [];
      var i := 0;
      while i < 4
        invariant 0 <= i <= 4 && |playerCards| == 4
        invariant forall k :: 0 <= k < i ==> playerCards[k] == []
        invariant currentIdx == old(currentIdx) && deck == old(deck) && handsOnTable == []
      {
        playerCards := playerCards[i := []];
        i := i + 1;
      }
    }

    /** Put an accepted hand on the table and take its cards from the current player. */
    method PutDown(newHand: Hand)
      requires Valid() && 0 <= currentIdx < 4
      requires newHand.Settled() && HandRules.Valid(newHand.Value())
      modifies this`handsOnTable, this`playerCards
      ensures Valid()
      ensures View() == Apply(old(View()), Play(newHand.Value()))
    {
      ghost var g0 := View();
      ValuesAppend(handsOnTable, newHand);
      AllSettledAppend(handsOnTable, newHand);
      var rest := RemoveCards(playerCards[currentIdx], newHand.cards);
      handsOnTable := handsOnTable + [newHand];
      playerCards := playerCards[currentIdx := rest];
      assert View().table == g0.table + [newHand.Value()];
      assert View().players == g0.players[g0.current := rest];
    }

    /** newHand.beats(last hand on the table), with both hands as isValid left them:
        beats sorts them again, which changes neither. */
    method BeatsLast(h: Hand, hs: seq<Hand>) returns (b: bool)
      requires hs != [] && h !in hs && h.Settled() && AllSettled(hs)
      modifies h, hs[|hs| - 1]
      ensures b == HandRules.Beats(old(h.Value()), old(hs[|hs| - 1].Value()))
      ensures h.Value() == old(h.Value()) && h.Settled()
      ensures Values(hs) == old(Values(hs)) && AllSettled(hs)
    {
      ghost var vs := Values(hs);
      var last := hs[|hs| - 1];
      ghost var c0, l0 := h.cards, h.isLarger;
      b := h.Beats(last);
      assert h.RefreshedFrom(c0, l0);
      assert forall k :: 0 <= k < |hs| ==> hs[k].Value() == vs[k] && hs[k].Settled();
      ValuesByElements(hs, vs);
    }

    /** The rules of addValidMove for a selection and the hand composeHand made of
        it: whether the move is legal, and whether it puts that hand on the table.
        Only beats touches the hands, and it leaves them as they were. */
    method Judgement(newHand: Hand?, selected: Option<seq<Card>>) returns (legal: bool, put: bool)
      requires Valid() && 0 <= currentIdx < 4
      requires newHand == null <==> Compose(currentIdx, selected).None?
      requires newHand != null ==>
        newHand !in handsOnTable && newHand.Settled() && newHand.Value() == Compose(currentIdx, selected).value
      modifies handsOnTable, newHand
      ensures View() == old(View()) && Valid()
      ensures newHand != null ==> newHand.Value() == old(newHand.Value()) && newHand.Settled()
      ensures legal == !Judge(View(), selected).Reject?
      ensures put <==> Judge(View(), selected).Play?
      ensures put ==> newHand != null && Judge(View(), selected) == Play(newHand.Value())
    {
      ghost var g0 := View();
      if |handsOnTable| == 0 {
        put := newHand != null && ThreeOfDiamonds in newHand.cards;
        assert Judge(g0, selected) == if put then Play(newHand.Value()) else Reject;
        return put, put;
      }
      var last := handsOnTable[|handsOnTable| - 1];
      assert last.Value() == Last(g0.table);
      if currentIdx == last.player {
        put := newHand != null;
        assert Judge(g0, selected) == if put then Play(newHand.Value()) else Reject;
        return put, put;
      }
      if selected.None? {
        assert Judge(g0, selected) == Pass;
        return true, false;
      }
      if newHand == null {
        assert Judge(g0, selected) == Reject;
        return false, false;
      }
      put := BeatsLast(newHand, handsOnTable);
      assert Judge(g0, selected) == if put then Play(newHand.Value()) else Reject;
      legal := put;
    }

    /** addValidMove: judge the current player's selection and, when it is legal and
        not a pass, put the hand on the table. */
    method AddValidMove(selected: Option<seq<Card>>) returns (ok: bool)
      requires Valid() && 0 <= currentIdx < 4
      modifies this`handsOnTable, this`playerCards, handsOnTable
      ensures Valid()
      ensures ok == !Judge(old(View()), selected).Reject?
      ensures View() == Apply(old(View()), Judge(old(View()), selected))
    {
      var newHand := ComposeHand(currentIdx, selected);
      var put;
      ok, put := Judgement(newHand, selected);
      if put {
        PutDown(newHand);
      }
    }

    /** makeMove, called with the active player: play the selected cards (none is a
        pass); an accepted move passes the turn on or ends the game. */
    method MakeMove(playerID: int, cardIdx: Option<seq<int>>)
      requires Valid() && CanMove(View(), playerID, cardIdx)
      modifies this, handsOnTable
      ensures Valid() && deck == old(deck)
      ensures View() == Engine.MakeMove(old(View()), playerID, cardIdx)
    {
      var select := Selection(playerCards[playerID], cardIdx);
      var ok := AddValidMove(select);
      if ok {
        Advance();
      }
    }

    /** The end of makeMove once a move is accepted: the next player's turn, or the
        end of the game when some player has no cards left. */
    method Advance()
      requires Valid()
      modifies this
      ensures Valid() && deck == old(deck)
      ensures View() == NextTurn(old(View()))
    {
      ghost var t := Values(handsOnTable);
      var end := EndOfGame();
      if !end {
        currentIdx := (currentIdx + 1) % 4;
        assert Values(handsOnTable) == t;
      } else {
        currentIdx := -1;
        RemoveAllCards();
        assert Values(handsOnTable) == [];
      }
    }

    /** checkMove: a move announced for another player than the local one is made. */
    method CheckMove(playerID: int, cardIdx: Option<seq<int>>)
      requires Valid()
      requires playerID != this.playerID ==> CanMove(View(), playerID, cardIdx)
      modifies this, handsOnTable
      ensures Valid() && deck == old(deck)
      ensures View() == if playerID != this.playerID then Engine.MakeMove(old(View()), playerID, cardIdx) else old(View())
    {
      if playerID != this.playerID {
        MakeMove(playerID, cardIdx);
      }
    }

    /** dealCards: thirteen rounds of one card per player, deck card i + 4 j going to
        player i in round j, then every player sorts its cards. */
    method DealCards()
      requires |playerCards| == 4 && |deck| >= 52
      modifies this`playerCards
      ensures playerCards == Engine.DealCards(old(playerCards), deck)
    {
      ghost var p0 := playerCards;
      var j := 0;
      while j < 13
        invariant 0 <= j <= 13 && |playerCards| == 4
        invariant forall k :: 0 <= k < 4 ==> playerCards[k] == p0[k] + DealtTo(deck, k)[..j]
      {
        var i := 0;
        while i < 4
          invariant 0 <= i <= 4 && |playerCards| == 4
          invariant forall k :: 0 <= k < i ==> playerCards[k] == p0[k] + DealtTo(deck, k)[..j + 1]
          invariant forall k :: i <= k < 4 ==> playerCards[k] == p0[k] + DealtTo(deck, k)[..j]
        {
          assert DealtTo(deck, i)[..j + 1] == DealtTo(deck, i)[..j] + [deck[i + 4 * j]];
          playerCards := playerCards[i := playerCards[i] + [deck[i + 4 * j]]];
          i := i + 1;
        }
        j := j + 1;
      }
      var i := 0;
      while i < 4
        invariant 0 <= i <= 4 && |playerCards| == 4
        invariant forall k :: 0 <= k < i ==> playerCards[k] == SortCards(p0[k] + DealtTo(deck, k))
        invariant forall k :: i <= k < 4 ==> playerCards[k] == p0[k] + DealtTo(deck, k)
      {
        playerCards := playerCards[i := SortCards(playerCards[i])];
        i := i + 1;
      }
    }

    /** findBeginner: the first player holding the 3 of diamonds moves first. */
    method FindBeginner()
      requires |playerCards| == 4
      modifies this`currentIdx
      ensures currentIdx == Beginner(playerCards, old(currentIdx))
    {
      var i := 0;
      while i < 4
        invariant 0 <= i <= 4
        invariant forall k :: 0 <= k < i ==> ThreeOfDiamonds !in playerCards[k]
        invariant currentIdx == old(currentIdx)
      {
        if ThreeOfDiamonds in playerCards[i] {
          currentIdx := i;
          break;
        }
        i := i + 1;
      }
    }

    /** start: take the shuffled deck, clear the table and the players, deal, and let
        the holder of the 3 of diamonds begin. */
    method Start(deck: seq<Card>)
      requires Valid() && |deck| >= 52
      modifies this
      ensures Valid() && this.deck == deck
      ensures View() == Engine.Start(old(View()), deck)
    {
      this.deck := deck;
      RemoveAllCards();
      DealCards();
      FindBeginner();
    }
  }
}
