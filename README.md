# Big Two rule engine

A model of the rule engine of a networked Big Two card game client, and proofs
about it. The cards, the eight hand shapes, the comparison of hands, the
dispatcher that turns a selection into a hand, the turn engine of
`BigTwoClient` and the card-selection flags of `BigTwoTable` are modelled.

The model is split into these modules:

- `Cards` (cards.dfy): a card is a suit 0..3 (diamonds to spades) and a rank 0..12.
  Rank 0 is the Ace, rank 1 the "2" and rank 2 the "3". `CompareTo` is
  `BigTwoCard.compareTo`: rank key `(rank + 11) mod 13` first, then suit.
- `CardLists` (card_lists.dfy): card lists as sequences.
  - `SortCards` stands for `CardList.sort`. The model sorts by insertion under compareTo. `SortedUnique` shows that every sort under compareTo gives the same list, so the choice of algorithm does not matter.
  - `RemoveCards` is `removeCards`, by (suit, rank).
  - `Pick` is `CardGamePlayer.play`, the cards at the given indices.
- `HandRules` (hand_rules.dfy): the hands as values.
  - A `Shape` tag stands for each `Hand` subclass.
  - Each `isValid` test is stated on the sorted cards.
  - Also here: `getType`, `getTopCard`, `beatType`, `beats` with the `Flush` override, and `composeHand`.
- `ShapeFacts` and `BeatsFacts` (shape_facts.dfy, beats_facts.dfy): what the shape tests and `beats` mean, in terms independent of the code.
- `Hands` (hands.dfy): class `Hand`.
  - It holds the mutable card list and the `isLarger` flag.
  - Its methods follow the Java code step by step: sorting in place, the early-return test loops, the `isLarger` bookkeeping, and beats re-validating both hands.
  - Each method is proved against the `HandRules` functions.
- `Deck` (deck.dfy): `BigTwoDeck.initialize` and the deck it builds.
- `Engine` (engine.dfy): the game as a value `GameState(table, players, current)`.
  - `Judge` gives addValidMove's verdict: `Reject`, `Pass` or `Play(hand)`.
  - `Proceed`/`MakeMove` and `Start` are the state transitions.
  - Their lemmas state the legality rules and what a move does.
- `Client` (client.dfy): class `BigTwoClient`, with fields `handsOnTable: seq<Hand>`, `playerCards` (four card lists) and `currentIdx`.
  - Its methods change these in place.
  - Each method is proved to produce `Engine`'s state, read off through `View()`.
- `Selection` (selection.dfy): class `BigTwoTable`, reduced to its `selected` flags, with `getSelected` and `resetSelected`.

Three behaviours are modelled as the code has them:

- **The priority chain of `Hand.beatType`.** In src/Hand.java:94 the Full House row tests
  `!= "Straight" || != "Flush"`, which always holds. In src/Hand.java:97 the Flush row makes a
  Flush beat every other five-card type except a Straight, and a Straight has no row. So a Full
  House beats every other five-card hand, and a Quad and a Full House beat each other. A Straight
  and a Flush can never be played on each other. A Straight Flush, a Quad and a Full House each
  beat a Flush.
- **The 3 of diamonds rule.** It holds only while the table is empty. The table is emptied
  only at the start of a game and at its end. A new round after three passes goes through the
  rule "the current player owns the last hand", under which a pass is rejected.
- **The move itself.** `makeMove` takes the cards from `playerID` but removes them from
  `currentIdx`. The model requires `playerID == currentIdx`. The user interface always
  passes the active player.

## Model

| member | source | states |
|---|---|---|
| `Cards.CompareTo` | src/BigTwoCard.java:31-45 | the result is -1, 0 or 1; it is 0 exactly for equal cards; it is 1 exactly when the rank key is larger, or the keys are equal and the suit is larger |
| `Cards.RankKey` | src/BigTwoCard.java:32-33 | the rank key lies in 0..12 |
| `Cards.RankKeyIsShiftedRank` | src/BigTwoCard.java:32-33 | the rank key is (rank + 11) mod 13 |
| `Cards.RankKeyInjective` | src/BigTwoCard.java:32-33 | two cards have equal keys exactly when they have equal ranks |
| `Cards.RankKeyExtremes` | src/BigTwoCard.java:32-33 | the "2" has key 12, the Ace 11, the "3" 0, and no other rank has these keys |
| `Cards.CompareAntisymmetric` | src/BigTwoCard.java:31-45 | compareTo(a, b) == -compareTo(b, a) |
| `Cards.CompareTransitive` | src/BigTwoCard.java:31-45 | compareTo is transitive, both strictly and non-strictly |
| `Cards.ThreeOfDiamondsIsMinimum` | src/BigTwoCard.java:31-45 | the 3 of diamonds is at most every card, and it is the only such card |
| `Cards.TwoOfSpadesIsMaximum` | src/BigTwoCard.java:31-45 | the 2 of spades is at least every card, and it is the only such card |
| `CardLists.SortCards` | src/Pair.java:25 | sort yields a list sorted under compareTo, with the same cards and length |
| `CardLists.SortedUnique` | src/Pair.java:25 | two sorted lists with the same cards are equal, so sorting has one outcome |
| `CardLists.SortCardsOfPermutation` | src/Pair.java:25 | sorting two reorderings of one list gives the same list |
| `CardLists.SortCardsIdempotent` | src/Hand.java:41 | sorting a sorted list again changes nothing |
| `CardLists.RemoveCard` | src/BigTwoClient.java:494 | removing one card takes away one copy of that card if it is held, and nothing otherwise |
| `CardLists.RemoveCardSorted` | src/BigTwoClient.java:494 | removing one card from a sorted list leaves it sorted |
| `CardLists.RemoveCardsSorted` | src/BigTwoClient.java:494 | removeCards keeps a sorted hand sorted, so the remaining cards keep their order |
| `CardLists.RemoveCards` | src/BigTwoClient.java:494 | removeCards leaves the held cards minus the played cards, as multisets |
| `CardLists.RemoveCardsSize` | src/BigTwoClient.java:494 | removing cards the player holds leaves as many fewer cards as were removed, and the removed and remaining cards together are the old cards |
| `CardLists.Pick` | src/BigTwoClient.java:103 | play gives one card per index: the card at that index |
| `CardLists.PickSubMultiset` | src/BigTwoClient.java:103 | cards picked at strictly increasing indices are among the player's cards |
| `CardLists.PickDistinct` | src/BigTwoClient.java:103 | picking from a list without repeated cards gives a list without repeated cards |
| `HandRules.ValidCards` | src/Pair.java:23-30 | a valid hand has the size its shape asks for; what each shape's test means is stated by `ShapeFacts.SingleIff` to `ShapeFacts.QuadIff` |
| `HandRules.TypeOf` | src/FullHouse.java:44-46 | getType is the hand's own shape, always for a valid hand, and it is null only for a Full House |
| `HandRules.TypeOfNullExactly` | src/FullHouse.java:44-46 | getType is null exactly for an invalid Full House |
| `HandRules.TopOfSorted` | src/Hand.java:39-45 | the card getTopCard picks is one of the sorted cards |
| `HandRules.TopCard` | src/Hand.java:39-45 | getTopCard is defined exactly for a valid hand and is then one of its cards; which card it is, is stated by `ShapeFacts.TopCardIsGreatest`, `ShapeFacts.FullHouseTopCard` and `ShapeFacts.QuadTopCard` |
| `HandRules.TypeChain` | src/Hand.java:85-102 | only a Straight Flush, Quad, Full House or Flush beats another type; a Full House beats every type, as written; only a Full House or a Flush beats a Straight Flush |
| `HandRules.BeatType` | src/Hand.java:85-102 | beatType holds only between five-card hands, for a hand with a type that is not a Straight |
| `HandRules.TopsBeat` | src/Flush.java:50-62 | the top cards compare by rank key and then suit, and for a Flush by suit and then rank key; no card beats itself |
| `HandRules.Beats` | src/Hand.java:52-61 | a hand that beats another is valid and has the same size; `BeatsFacts` states the rest |
| `HandRules.TryShape` | src/BigTwoClient.java:407-408 | a hand is kept exactly when its isValid holds; it then holds the sorted cards and is valid |
| `HandRules.Compose` | src/BigTwoClient.java:398-429 | any hand composeHand returns is valid, is the player's, has the selected cards in sorted order, and has the size its shape asks for |
| `HandRules.ValidPermutation` | src/Pair.java:23-30 | whether cards form a shape does not depend on their order |
| `HandRules.ClassifyPermutation` | src/Hand.java:39-45 | reordering the cards keeps validity, type and top card |
| `HandRules.ValidSorted` | src/Pair.java:25 | the shape test gives the same answer on the sorted cards |
| `HandRules.ComposeComplete` | src/BigTwoClient.java:412-426 | whenever the cards form some shape, composeHand returns a hand |
| `ShapeFacts.SingleIff` | src/Single.java:23-28 | a Single is valid exactly when it has one card |
| `ShapeFacts.PairIff` | src/Pair.java:23-30 | a Pair is valid exactly when it has two cards of one rank |
| `ShapeFacts.TripleIff` | src/Triple.java:23-30 | a Triple is valid exactly when it has three cards of one rank |
| `ShapeFacts.AdjacentKeysRun` | src/Straight.java:26-29 | the adjacent-key loop passes exactly when the five sorted keys are k, k+1, ..., k+4 |
| `ShapeFacts.AdjacentSuitsFive` | src/Flush.java:26-29 | the adjacent-suit loop passes exactly when all five cards share a suit |
| `ShapeFacts.StraightIff` | src/Straight.java:23-36 | a Straight is valid exactly when it has five cards, the sorted keys run consecutively, and not all suits agree |
| `ShapeFacts.FlushIff` | src/Flush.java:23-36 | a Flush is valid exactly when it has five cards of one suit whose sorted keys do not run consecutively |
| `ShapeFacts.StraightFlushIff` | src/StraightFlush.java:23-37 | a Straight Flush is valid exactly when it has five cards of one suit whose sorted keys run consecutively |
| `ShapeFacts.NoWrapAround` | src/Straight.java:26-29 | runs do not wrap around: the lowest key is at most 8, a "2" can only be the top card, and a "2" never appears with a "3" |
| `ShapeFacts.FullHouseIff` | src/FullHouse.java:23-39 | a Full House is valid exactly when it has five cards, three of one rank and two of another |
| `ShapeFacts.QuadIff` | src/Quad.java:23-37 | a Quad is valid exactly when it has five cards, four or more of one rank |
| `ShapeFacts.FullHouseNotQuad` | src/FullHouse.java:23-39 | no list is both a valid Full House and a valid Quad |
| `ShapeFacts.StraightFlushSeparate` | src/StraightFlush.java:23-37 | no list is two of Straight, Flush and Straight Flush |
| `ShapeFacts.RunNotGrouped` | src/Straight.java:23-36 | no Straight or Straight Flush is also a Full House or a Quad |
| `ShapeFacts.FlushNotGrouped` | src/Flush.java:23-36 | no Flush of distinct cards is also a Full House or a Quad |
| `ShapeFacts.ShapesExclusive` | src/BigTwoClient.java:412-426 | for distinct cards at most one shape is valid, so the order of the tries does not matter |
| `ShapeFacts.ComposeFindsTheShape` | src/BigTwoClient.java:398-429 | for distinct cards of a valid shape, composeHand returns that shape with the cards sorted (a Single keeps its card) |
| `ShapeFacts.ComposeRejectsSizes` | src/BigTwoClient.java:398-429 | null, and sizes other than 1, 2, 3 and 5, give no hand |
| `ShapeFacts.SingleTopCard` | src/Hand.java:39-45 | the top card of a valid Single is its card |
| `ShapeFacts.TopCardIsGreatest` | src/Hand.java:39-45 | apart from Full House and Quad, the top card of a valid hand is one of its cards and at least every other card |
| `ShapeFacts.PairTopCard` | src/Hand.java:39-45 | the top card of a valid Pair is its card with the higher suit |
| `ShapeFacts.TripleTopCard` | src/Hand.java:39-45 | the top card of a valid Triple is its card with the highest suit |
| `ShapeFacts.FullHouseTopCard` | src/FullHouse.java:53-60 | the top card of a valid Full House belongs to the three of a kind and is the largest of them |
| `ShapeFacts.QuadTopCard` | src/Quad.java:51-58 | the top card of a valid Quad of distinct cards belongs to the four of a kind and is the largest of them |
| `BeatsFacts.BeatsNeedsValidSameSize` | src/Hand.java:52-61 | a hand that beats another is valid and has the same size |
| `BeatsFacts.SizesMustMatch` | src/Hand.java:53 | hands of different sizes never beat each other |
| `BeatsFacts.SameShapeByTopCard` | src/Hand.java:54-55 | for one shape other than Flush, beats holds exactly when this top card is larger under compareTo |
| `BeatsFacts.BeatsIrreflexive` | src/Hand.java:52-61 | no hand beats itself |
| `BeatsFacts.SameShapeAsymmetricAndTotal` | src/Hand.java:54-55 | of two valid hands of one shape, at most one beats the other, and one does when the top cards differ |
| `BeatsFacts.SameShapeTransitive` | src/Hand.java:54-55 | within one shape other than Flush, beats is transitive |
| `BeatsFacts.SingleBeats` | src/Hand.java:55 | a Single beats a Single exactly when its card is larger |
| `BeatsFacts.GroupByRank` | src/Hand.java:55 | Pairs and Triples of different ranks compare by rank key |
| `BeatsFacts.FullHouseByTriple` | src/FullHouse.java:53-60 | Full Houses compare by the rank of their three of a kind |
| `BeatsFacts.QuadByRank` | src/Quad.java:51-58 | Quads compare by the rank of their four of a kind |
| `BeatsFacts.FlushBySuitThenRank` | src/Flush.java:50-62 | Flushes compare by suit first, and by the top card's rank key within one suit |
| `BeatsFacts.StraightFlushBeatsOtherTypes` | src/Hand.java:87-89 | a valid Straight Flush beats every five-card hand of another type |
| `BeatsFacts.QuadAgainstOtherTypes` | src/Hand.java:90-92 | a valid Quad beats a five-card hand of another type exactly when that hand is not a Straight Flush |
| `BeatsFacts.FullHouseBeatsOtherTypes` | src/Hand.java:93-95 | a valid Full House beats every five-card hand of another type |
| `BeatsFacts.QuadAndFullHouseBeatEachOther` | src/Hand.java:90-95 | a valid Quad and a valid Full House each beat the other |
| `BeatsFacts.FlushAgainstOtherTypes` | src/Hand.java:96-98 | a valid Flush beats a five-card hand of another type exactly when that hand is not a Straight |
| `BeatsFacts.StraightOnlyBeatsStraights` | src/Hand.java:85-102 | a Straight never beats a hand of another type |
| `BeatsFacts.SmallHandsBeatOnlyTheirType` | src/Hand.java:52-61 | a Single, Pair or Triple never beats a hand of another type |
| `Hands.RefreshIdempotent` | src/FullHouse.java:23-39 | running isValid a second time leaves the cards and isLarger as the first run left them |
| `Hands.RefreshKeepsMeaning` | src/Pair.java:25 | isValid only reorders the cards: same cards, same validity, type and top card |
| `Hands.Hand.constructor` | src/Hand.java:17-25 | the hand holds exactly the given cards in the given order, with its shape and player |
| `Hands.Hand.Sort` | src/Hand.java:41 | sort replaces the cards with their sorted list |
| `Hands.Hand.KeysConsecutive` | src/Straight.java:26-29 | the early-return loop answers whether every adjacent pair has consecutive keys |
| `Hands.Hand.SuitsAgree` | src/Flush.java:26-29 | the early-return loop answers whether every adjacent pair shares its suit |
| `Hands.Hand.IsValid` | src/Pair.java:23-30 | isValid answers the shape test on the cards it was given, and leaves the cards and isLarger in the state one validation run defines |
| `Hands.Hand.TestSorted` | src/Triple.java:24-29 | the test on the sorted cards is the shape's test, and isLarger changes only after a successful Full House or Quad test |
| `Hands.Hand.RunTest` | src/Straight.java:26-33 | Straight, Flush and Straight Flush combine the key loop and the suit loop as each isValid does |
| `Hands.Hand.FullHouseTest` | src/FullHouse.java:26-36 | the XXX YY or XX YYY test, with isLarger set as the layout found |
| `Hands.Hand.QuadTest` | src/Quad.java:26-34 | the first-four or last-four test, with isLarger set as the layout found |
| `Hands.Hand.GetType` | src/FullHouse.java:44-46 | getType is the shape, and null for an invalid Full House; only the Full House re-validates its cards |
| `Hands.Hand.GetTopCard` | src/Hand.java:39-45 | getTopCard is null for an invalid hand and otherwise the top card of the sorted cards |
| `Hands.Hand.PickTop` | src/FullHouse.java:56 | the card that isLarger selects is the top of the sorted cards |
| `Hands.Hand.BeatType` | src/Hand.java:85-102 | beatType is the priority chain as written, and it re-validates only the hands whose type it asks for |
| `Hands.Hand.Beats` | src/Hand.java:52-61 | beats is the value of the rules on the two hands as they were, and leaves each hand as one run of its isValid leaves it |
| `Hands.Hand.BeatsValid` | src/Hand.java:54-58 | once the hand is valid and the sizes agree: the top cards decide for one type, beatType otherwise |
| `Hands.Hand.CompareTops` | src/Flush.java:52-56 | the same-type comparison: compareTo on the top cards, or for Flush suit first and then rank key |
| `Deck.FullDeck` | src/BigTwoDeck.java:18-23 | the deck holds 52 cards |
| `Deck.DeckAt` | src/BigTwoDeck.java:18-20 | position 13 i + j holds the card of suit i and rank (j + 2) mod 13, whose rank key is j |
| `Deck.DeckPosition` | src/BigTwoDeck.java:18-20 | every card lies at position 13 times its suit plus its rank key |
| `Deck.DeckDistinct` | src/BigTwoDeck.java:18-23 | no card occurs twice |
| `Deck.DeckHoldsEveryCardOnce` | src/BigTwoDeck.java:18-23 | every (suit, rank) pair occurs exactly once |
| `Deck.DeckAscendingWithinSuit` | src/BigTwoDeck.java:19-20 | within each suit the cards ascend strictly under compareTo |
| `Deck.BigTwoDeck.Initialize` | src/BigTwoDeck.java:16-25 | initialize discards the old cards and leaves exactly the 52 cards in order |
| `Engine.Judge` | src/BigTwoClient.java:481-520 | an accepted hand is the one composeHand made of the selection; a pass is accepted only from a player who does not own the last hand on a non-empty table; the three rules are `Engine.EmptyTableRule`, `Engine.OwnerRule` and `Engine.OtherPlayerRule` |
| `Engine.Apply` | src/BigTwoClient.java:493-494 | an accepted hand is appended to the table, and the turn and the number of players stay; any other verdict changes nothing |
| `Engine.ApplyEffect` | src/BigTwoClient.java:493-494 | putting a hand down leaves the other players' cards as they were, and takes exactly the hand's cards from the current player, as multisets |
| `Engine.EndOfGameMeansSomeoneIsOut` | src/BigTwoClient.java:142-145 | endOfGame holds exactly when some player holds no cards |
| `Engine.RemoveAllCards` | src/BigTwoClient.java:434-439 | the table and all four players' cards are emptied, and the turn is kept |
| `Engine.NextTurn` | src/BigTwoClient.java:108-120 | currentIdx becomes -1 exactly when some player holds no cards, and then everything is cleared; otherwise only the turn moves to the next player |
| `Engine.Proceed` | src/BigTwoClient.java:104-121 | a rejected move changes nothing; after an accepted move the next player moves or the game ends |
| `Engine.MakeMove` | src/BigTwoClient.java:102-122 | a move changes nothing, passes the turn to the next player, or ends the game |
| `Engine.ProceedNeverAddsCards` | src/BigTwoClient.java:104-121 | whatever addValidMove decides, no player gains cards |
| `Engine.MoveNeverAddsCards` | src/BigTwoClient.java:102-122 | no player ever gains cards by a move |
| `Engine.MakeMoveKeepsHandsSorted` | src/BigTwoClient.java:102-122 | a move keeps every player's cards sorted |
| `Engine.DealtTo` | src/BigTwoClient.java:445-449 | each player is dealt 13 cards; `Engine.DealtPosition` says which |
| `Engine.DealCards` | src/BigTwoClient.java:444-453 | each player ends up with its old cards plus its 13 dealt cards, sorted |
| `Engine.Beginner` | src/BigTwoClient.java:458-465 | when some player holds the 3 of diamonds, the beginner is the first who does; otherwise currentIdx is kept |
| `Engine.Start` | src/BigTwoClient.java:89-95 | start empties the table and gives each player exactly its 13 dealt cards, sorted; whoever holds the 3 of diamonds moves first |
| `Engine.Selection` | src/BigTwoClient.java:103 | no indices is a pass; otherwise one card per index, the card at that index |
| `Engine.EmptyTableRule` | src/BigTwoClient.java:491-497 | on an empty table a move is accepted exactly when it forms a hand holding the 3 of diamonds, and a pass is rejected |
| `Engine.OwnerRule` | src/BigTwoClient.java:499-505 | when the current player owns the last hand, any valid hand is accepted and a pass or an invalid selection is rejected |
| `Engine.OtherPlayerRule` | src/BigTwoClient.java:506-516 | otherwise a pass is accepted, and a hand is accepted exactly when it beats the last hand |
| `Engine.PlayedHand` | src/BigTwoClient.java:481-520 | an accepted hand is a valid hand of the current player with the selected cards in sorted order |
| `Engine.RejectedMoveChangesNothing` | src/BigTwoClient.java:102-122 | a rejected move leaves the table, every player's cards and the turn as they were |
| `Engine.PassMovesTheTurn` | src/BigTwoClient.java:108-111 | an accepted pass only moves the turn to the next player |
| `Engine.NobodyRunsOut` | src/BigTwoClient.java:142-145 | while every player holds cards the game does not end |
| `Engine.LastCardsEndTheGame` | src/BigTwoClient.java:112-120 | a hand that empties the current player's cards ends the game: empty table, no cards, currentIdx -1 |
| `Engine.PlayedHandStays` | src/BigTwoClient.java:108-111 | any other accepted hand goes on the table, its cards leave the current player and the next player moves |
| `Engine.PlayedHandEffect` | src/BigTwoClient.java:104-121 | an accepted hand either ends the game or is appended to the table, with its cards removed and the turn passed on |
| `Engine.PlayConservesCards` | src/BigTwoClient.java:493-494 | the played cards leave the current player: what remains plus what was played is what was held |
| `Engine.LawfulTableGrows` | src/BigTwoClient.java:493 | appending a valid hand of a player keeps the table lawful |
| `Engine.ProceedKeepsPlaying` | src/BigTwoClient.java:104-121 | after a move the game is either still going, with four players holding cards and only valid hands on the table, or ended |
| `Engine.MakeMoveKeepsPlaying` | src/BigTwoClient.java:102-122 | the same for every makeMove call |
| `Engine.PassByOtherPlayer` | src/BigTwoClient.java:506-509 | a player who does not own the last hand may pass, which only moves the turn |
| `Engine.ThreePassesReturnTheLead` | src/BigTwoClient.java:499-509 | after three passes the owner of the last hand moves again, and may no longer pass |
| `Engine.BeginnerHoldsThreeOfDiamonds` | src/BigTwoClient.java:458-465 | findBeginner picks the first player holding the 3 of diamonds |
| `Engine.DealtPosition` | src/BigTwoClient.java:445-449 | deck card k goes to player k mod 4, in round k / 4 |
| `Engine.StartDeals` | src/BigTwoClient.java:89-93 | start clears the table and gives player i the sorted deck cards i, i + 4, ..., i + 48 |
| `Engine.ThreeOfDiamondsIsDealt` | src/BigTwoClient.java:444-453 | from a shuffled full deck some player receives the 3 of diamonds |
| `Engine.StartWithFullDeck` | src/BigTwoClient.java:89-95 | start with a shuffled full deck gives a game in progress: an empty table, 13 sorted cards each, and the holder of the 3 of diamonds to move |
| `Client.TryHand` | src/BigTwoClient.java:407-408 | a new hand is kept exactly when its isValid holds, and then holds the validated cards |
| `Client.ComposeHand` | src/BigTwoClient.java:398-429 | composeHand returns null exactly when no shape fits, and otherwise a new hand with the value of the dispatcher |
| `Client.BigTwoClient.constructor` | src/BigTwoClient.java:36-48 | a new client has four players without cards and an empty table |
| `Client.BigTwoClient.EndOfGame` | src/BigTwoClient.java:142-145 | endOfGame answers whether some player has no cards |
| `Client.BigTwoClient.RemoveAllCards` | src/BigTwoClient.java:434-439 | the table and every player's cards are emptied, nothing else changes |
| `Client.BigTwoClient.PutDown` | src/BigTwoClient.java:493-494 | the hand is appended to the table and its cards leave the current player, as in the value model; it may change only the table and the players' cards, so the deck and currentIdx stay as they were |
| `Client.BigTwoClient.BeatsLast` | src/BigTwoClient.java:510 | newHand.beats(last hand) gives the value of the rules, and the hands on the table keep their values |
| `Client.BigTwoClient.Judgement` | src/BigTwoClient.java:490-519 | the legality rules: a move is legal exactly when the verdict is not a rejection, and a hand is put down exactly when the verdict is to play it |
| `Client.BigTwoClient.AddValidMove` | src/BigTwoClient.java:481-520 | addValidMove returns true exactly for a legal move and leaves the state the verdict describes; it may change only the table and the players' cards, so the deck and currentIdx stay as they were |
| `Client.BigTwoClient.MakeMove` | src/BigTwoClient.java:102-122 | makeMove leaves exactly the state that the value model of makeMove gives, and the deck stays as it was |
| `Client.BigTwoClient.Advance` | src/BigTwoClient.java:108-121 | an accepted move passes the turn on, or ends the game when some player has no cards; the deck stays as it was |
| `Client.BigTwoClient.CheckMove` | src/BigTwoClient.java:129-136 | a move announced for another player is made, and one for the local player is ignored; the deck stays as it was |
| `Client.BigTwoClient.DealCards` | src/BigTwoClient.java:444-453 | each player receives deck cards i, i + 4, ..., i + 48 and sorts its cards |
| `Client.BigTwoClient.FindBeginner` | src/BigTwoClient.java:458-465 | currentIdx becomes the first player holding the 3 of diamonds, and is unchanged when nobody does |
| `Client.BigTwoClient.Start` | src/BigTwoClient.java:89-95 | start keeps the deck and leaves the state the value model of start gives |
| `Selection.CountTrue` | src/BigTwoTable.java:142-146 | the count of selected cards is at most the number of flags |
| `Selection.SelectedIndices` | src/BigTwoTable.java:150-155 | at most one index per flag; the other `Selection` lemmas state exactly which indices are listed |
| `Selection.SelectedIndicesLength` | src/BigTwoTable.java:142-148 | there are as many indices as set flags |
| `Selection.SelectedIndicesIncreasing` | src/BigTwoTable.java:150-155 | the indices lie within the flags and strictly increase |
| `Selection.SelectedIndicesMembers` | src/BigTwoTable.java:150-155 | an index is listed exactly when its flag is set |
| `Selection.CountTrueZero` | src/BigTwoTable.java:140-147 | the count is zero exactly when no flag is set |
| `Selection.SelectionFitsTheCards` | src/BigTwoTable.java:597-598 | the selected indices all point into the player's cards, as makeMove requires |
| `Selection.BigTwoTable.constructor` | src/BigTwoTable.java:37-42 | a new table holds a reset selection |
| `Selection.BigTwoTable.ResetSelected` | src/BigTwoTable.java:163-167 | a new all-false selection of numOfCards flags when numOfCards > 0, and no change otherwise |
| `Selection.BigTwoTable.GetSelected` | src/BigTwoTable.java:139-158 | null exactly when no flag is set, and otherwise a new array of the selected indices in increasing order |

## Left out

- The Swing user interface is left out: frames, painting, images, menus, dialogs and mouse handling. So are `printMsg` and `showGameResult`. The engine's calls into `table` (`printMsg`, `enable`, `disable`, `setActivePlayer`, `repaintBigTwoPanel`, `reset`) do nothing in the model.
- The call to `newHand.getType()` inside addValidMove's message is left out. It only prints, and re-running isValid on a hand composeHand just validated changes nothing (`Hands.RefreshIdempotent`).
- Networking and threads are left out: the connection, `sendMessage`, the message handler, `parseMessage`, and the `synchronized` modifiers. They are I/O and concurrency. The READY message `makeMove` sends at the end of a game is not modelled.
- The local player's index `playerID` is fixed when the client is made. The source sets it from a JOIN/PLAYER_LIST message. QUIT/JOIN name bookkeeping (`removePlayer`, `addNewPalyer`) is left out.
- Shuffling is left out; the deck arrives as a parameter of `Start`.
- Engine.PlayConservesCards: covers only increasing card indices, which every selection from the table is (`Selection.SelectedIndicesIncreasing`). `makeMove` itself accepts repeated indices, and then the hand holds one card twice; that case is out of scope.
- The classes whose code is not part of this model are modelled abstractly: `Card`, `CardList`, `Deck`, `CardGamePlayer` and `CardGameMessage`. The approximations:
  - `sort` is `SortCards`;
  - `contains` is sequence membership;
  - `removeCards` is `RemoveCards` by (suit, rank);
  - `play` is `Pick`;
  - a hand's player is the player's index.
- The hand type strings, and Java's `==` comparison of interned strings, are replaced by the `Shape` tag. `getType` gives `Option<Shape>`, and `None` stands for the Full House's null.
- addValidMove's `currentPlayer` parameter is left out. composeHand is given `currentIdx` as the owner instead. The only caller passes `playerList.get(currentIdx)`, so the parameter and `currentIdx` name the same player.
- Client.BigTwoClient.MakeMove: requires `playerID == currentIdx`. The source does not check turn ownership, but its only callers pass the active player. It also requires the indices to lie within the player's cards. `CardGamePlayer.play` is not part of this model, and the model assumes it is only called with such indices.
- Selection.BigTwoTable.GetSelected and ResetSelected: `numOfCards` is a parameter of ResetSelected rather than a read of the local player's card count. GetSelected requires a selection to exist, because the source fails on a null array.
- AddValidMove is split into `Judgement` (the rules) and `PutDown` (appending the hand and removing its cards), and makeMove's tail is split into `Advance`. The split keeps each proof small. The order of the steps is the source's.
- ShapeFacts.QuadTopCard, ShapeFacts.FlushNotGrouped, ShapeFacts.ShapesExclusive and ShapeFacts.ComposeFindsTheShape: these assume the cards are distinct. With two copies of one card, a sorted Quad layout can hide which card is the top card, and a Flush can also be a Full House. A real deck never has repeated cards (`Deck.DeckHoldsEveryCardOnce`, `CardLists.PickDistinct`).
- BeatsFacts.SameShapeTransitive: excludes Flush. Flush.beats compares suits first and rank keys within one suit, which `BeatsFacts.FlushBySuitThenRank` states instead.
- Hands.Hand.Beats and HandRules.Beats: require `BeatsDefined`: when this hand is valid and the two hands have one size and one type, the other hand must be valid too. Otherwise the source dereferences the other hand's null top card (src/Hand.java:54-55). Client.BigTwoClient.MakeMove likewise requires the last hand on the table to be valid; every accepted move keeps this (`Engine.ProceedKeepsPlaying`).
