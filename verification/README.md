# Card-game rule engine, modelled in Dafny

This project models the rule engine of a single-player card game. The
engine is a zustand store whose commands are state-transition closures. Each
`set((state) => …)` body is modelled as a pure function from the old game
state to the new one, over immutable records:

- `Card`, `Player`, `Column` and `State` are datatypes (`game.dfy`, `cards.dfy`).
- The player's zones are `hand` (capacity 5), `reserve` (capacity 2) and `discardPile`.
- The top-level draw pile is `deck`.
- The board is a map from suit to column. A column has cards, a guarded slot
  (`reserveSuit`), the kind of activator in that slot, the flags, and the
  attached Jack and King.

Besides the turn cycle (select, discard, draw, act, pass), the model covers
the placements on the board:

- an Ace with an activator opens a column;
- a Jack or King with an activator is attached to a column;
- a lone 7 is set at position 7;
- a Queen with an activator clears a slot;
- the Joker's heal and attack, and the Queen's challenge;
- the revolution;
- the seven's action and the activator exchange;
- the column button that offers either of those.

Cards are identified by their `id`. Removing a card from a zone filters the
zone by identifier, as the store does. Most properties are conservation
statements over the multiset of all cards in play (`Game.AllCards`): the
draw pile, the three zones and every column. They hold under the assumption
that held cards have distinct identifiers (`Zones.DistinctIds`).

Some code paths throw inside an update: a column the board does not have, a
name that is not in scope, or an undeclared constant. A throw inside
`set(…)` leaves the store as it was, so the model returns the state
unchanged on those paths.

Module layout, one file each:

| file | content |
|---|---|
| `wrappers.dfy` | `Option` |
| `cards.dfy` | cards |
| `zones.dfy` | identifier-based zone operations |
| `deck.dfy` | the deck collaborator |
| `game.dfy` | state, columns and card multisets |
| `game_logic.dfy` | the game-logic service |
| `turn.dfy` | turn cycle |
| `shuffle.dfy` | recycling and the strategic shuffle |
| `placement.dfy` | tapping a column |
| `specials.dfy` | Joker and Queen |
| `seven.dfy` | the seven's action |
| `exchange.dfy` | activator exchange |
| `exchange_button.dfy` | column button |
| `revolution.dfy` | revolution |
| `queries.dfy` | the store's boolean queries |

## Model

| member | source | states |
|---|---|---|
| Turn.SelectCard | src/store/gameStore.ts:156-205 | Once the action is played the state is unchanged. A selected card (by id) is removed and nothing else is. An unselected card is appended only while fewer than two are selected, so a growing selection never exceeds two. |
| Turn.SelectCardFrame | src/store/gameStore.ts:156-205 | Selecting changes only the selection and the message. |
| Turn.SelectTwiceRestores | src/store/gameStore.ts:159-201 | Selecting an unselected card, then selecting it again, restores the prior selection exactly. |
| Turn.DeselectThenSelectRestores | src/store/gameStore.ts:159-201 | Deselecting a selected card and selecting it again restores the selection as a set of cards. |
| Turn.HandleDrawCard | src/store/gameStore.ts:310-363 | Acts only in the draw phase before drawing, and ends in the action phase with the draw done. The hand is filled to 5 before the reserve to 2, so neither cap is exceeded, and the reserve grows only once the hand is full. Old zones are prefixes of the new ones. The multiset of deck, hand and reserve is preserved. Apart from the deck, hand, reserve, phase, draw flag and message, nothing changes: the columns, the turn, the selection and the action and discard flags are kept, so the action is still open. |
| Turn.DrawConserves | src/store/gameStore.ts:310-363 | Drawing loses and invents no card of the game. |
| Turn.DistributeShape | src/store/gameStore.ts:339-348 | Dealing one card at a time gives the hand the first drawn cards, as many as it has room for, and the reserve the next ones, as many as it has room for. The rest are dropped. |
| Turn.DistributeKeepsAll | src/store/gameStore.ts:339-348 | Dealing no more cards than there are free places keeps every drawn card and respects both capacities. |
| Turn.HandleDiscard | src/store/gameStore.ts:728-761 | The effective (second) definition. It acts only in the discard phase before discarding. The card leaves hand and reserve by id and is appended to the discard pile. The result is in the draw phase with the selection cleared; the deck, the columns and the other flags are unchanged. |
| Turn.DiscardConserves | src/store/gameStore.ts:728-761 | Discarding a held card loses and invents no card, and the held count drops by exactly one. |
| Turn.HandlePassTurn | src/store/gameStore.ts:365-395 | Acts only in the action phase after the action. The next phase is discard exactly when 7 cards are held and draw otherwise. Flags, selection and the strategic-shuffle mark are reset, and the turn grows by exactly one. |
| Turn.EndTurn | src/store/gameStore.ts:705-726 | Has no guard. A staged next phase wins; otherwise the next phase is discard exactly when 7 cards are held. It clears the staged phase and the flags, leaves the turn alone, and records the old selection length. |
| Turn.EndTurnAgreesWithPassTurn | src/store/gameStore.ts:365-395 | With nothing staged, ending and passing the turn choose the same phase; only passing advances the counter. |
| Turn.StartGame | src/store/gameStore.ts:459-472 | Leaves setup for the discard phase exactly when the reserve holds two cards; otherwise nothing changes. |
| Turn.HandleSkipAction | src/store/gameStore.ts:398-414 | Acts only in the action phase before the action. It marks the action, discard and draw as done with no card played, and leaves the cards untouched. |
| Turn.HandleSurrender | src/store/gameStore.ts:416-423 | The game is over, the opponent wins, and nothing but the message changes besides. |
| Turn.ExchangeCards | src/store/gameStore.ts:539-570 | A hand card and a reserve card found by id trade places. Zone sizes and the joint multiset are kept, and each card ends in the other zone. If either card is not found, nothing changes. |
| Turn.ExchangeCardsInverse | src/store/gameStore.ts:539-570 | Exchanging back with the roles reversed restores hand and reserve. |
| Turn.MoveToReserve | src/store/gameStore.ts:430-442 | The card is appended to the reserve and leaves the hand by id; the reserve capacity is not checked. |
| Turn.MoveToHand | src/store/gameStore.ts:444-457 | Refused when the hand holds five. Otherwise the card is appended to the hand and leaves the reserve by id, so the hand cap is kept. |
| Turn.MoveToReserveConserves | src/store/gameStore.ts:430-442 | Moving a held hand card to the reserve conserves every card. |
| Turn.MoveToHandConserves | src/store/gameStore.ts:444-457 | Moving a held reserve card to the hand conserves every card. |
| Turn.MoveToReserveThenHand | src/store/gameStore.ts:430-457 | Moving a hand card to the reserve and back restores both zones as multisets. |
| Turn.InitializeGame | src/store/gameStore.ts:113-154 | The new game holds exactly the cards of the full deck. The hand has at most 7 cards, the reserve and discard pile are empty, and the board is the four empty columns. Health is 10/10, the phase is setup and the turn is 1. |
| Shuffle.RecycleDiscardPile | src/store/gameStore.ts:522-537 | Acts only when the draw pile is empty and the discard pile is not. The new draw pile is a permutation of the discard pile, which is emptied; nothing else changes. |
| Shuffle.RecycleConserves | src/store/gameStore.ts:522-537 | Recycling loses and invents no card. Afterwards the draw pile is empty exactly when both piles were. |
| Shuffle.HandleStrategicShuffle | src/store/gameStore.ts:763-827 | Refused unless the shuffle is open. Deck plus hand plus discard pile is preserved as a multiset, the discard pile is emptied, and the new hand has at most 5 cards. Reserve and columns are untouched. The action is left unplayed exactly on the game's first strategic shuffle. |
| Shuffle.StrategicShuffleConserves | src/store/gameStore.ts:774-827 | The strategic shuffle loses and invents no card. |
| Shuffle.StrategicShuffleOncePerTurn | src/store/gameStore.ts:763-772 | After a strategic shuffle it is no longer available, so a second one changes nothing. |
| Shuffle.ConfirmStrategicShuffle | src/store/gameStore.ts:829-845 | The new draw pile is a permutation of the old pile, discard pile and hand. Hand and discard pile are emptied, and the reserve and columns are kept. The turn is in the discard phase with the action played. |
| Shuffle.ConfirmConserves | src/store/gameStore.ts:829-845 | Confirming loses and invents no card. |
| GameLogic.ShouldSkipDiscard | src/services/gameLogic.ts:3-5 | True exactly when at least one card was played last turn. |
| GameLogic.CalculateMissingCards | src/services/gameLogic.ts:7-10 | Never negative. It tops hand plus reserve up to exactly 7 when they hold at most 7, and is 0 otherwise. |
| GameLogic.HandleJokerHeal | src/services/gameLogic.ts:16-23 | Health rises by exactly 3, the maximum equals the new health, and no other player field changes. |
| GameLogic.GetNextPhase | src/services/gameLogic.ts:25-29 | The result is in the cycle and its index is the successor of the input's index modulo 3. |
| GameLogic.NextPhaseCycles | src/services/gameLogic.ts:25-29 | Three steps from discard, draw or action return to the start. |
| GameLogic.NextPhaseTable | src/services/gameLogic.ts:26-28 | Discard goes to draw, draw to action, action to discard, and setup (index -1) to discard. |
| Deck.TopDraw | src/store/gameStore.ts:115-118 | A witness for the deck collaborator: drawing takes the first min(n, size) cards and keeps the rest. |
| Placement.HandleCardPlace | src/store/gameStore.ts:884-1134 | Has no phase guard. Every outcome keeps the deck, turn, health and column keys, and grows the discard pile by at most two. With no, or more than two, cards selected nothing changes. A change always consumes the action with as many cards as were selected. A lone card other than a 7 at position 7 on an existing column changes nothing. |
| Placement.AcePlacement | src/store/gameStore.ts:889-935 | An Ace of the tapped suit with an activator, at position 0, on a column that is empty or not lucky, opens the column. Its cards become the Ace alone and it turns lucky. The activator guards the slot with its kind recorded. Faces and other columns are unchanged, and the action is consumed with two cards. |
| Placement.AceLeavesZones | src/store/gameStore.ts:903-927 | The Ace and the activator leave hand and reserve, and no other card does. |
| Placement.AceConserves | src/store/gameStore.ts:895-935 | Opening a column with held cards moves the Ace and the activator from the zones to the board. The column's old cards and old slot card are overwritten and leave play: the cards in play shrink by exactly those, and by nothing when the column was empty. |
| Placement.FacePlacement | src/store/gameStore.ts:938-987 | A Jack or King of the tapped suit with an activator, at position 0, is attached under its own value. The activator goes to the end of the discard pile. The column's cards and slot and the other columns are unchanged. |
| Placement.FaceConserves | src/store/gameStore.ts:938-987 | Attaching a held face card to a free place loses and invents no card. |
| Placement.SevenAtPositionSeven | src/store/gameStore.ts:990-1047 | A lone 7 at position 7 of its own column takes position 7, or is appended to a shorter column. The slot and its kind are cleared. The slot's card joins the zone the 7 came from (hand when the hand holds its id), and that zone otherwise only loses the 7. |
| Placement.PlaceSevenAtKeys | src/store/gameStore.ts:990-1047 | Setting a 7 keeps the board's set of columns. |
| Placement.SevenConserves | src/store/gameStore.ts:990-1047 | Setting a held 7 on a column of at most seven cards loses and invents no card. |
| Placement.QueenComboEffect | src/store/gameStore.ts:1075-1130 | A Queen with an activator, on any column, discards both in that order and takes them out of the zones. The first slot holding the activator's id is emptied. The next phase is staged from the cards left. Health and maximum health do not change. |
| Placement.QueenConserves | src/store/gameStore.ts:1075-1130 | With both cards held and no slot holding the activator, the combination loses and invents no card. |
| Placement.QueenFromSlotConserves | src/store/gameStore.ts:1075-1130 | With the Queen held and the activator not held but in the slot of the column the search finds, the activator leaves that slot and joins the discard pile with the Queen: the combination loses and invents no card. |
| Specials.HandleJokerAction | src/store/gameStore.ts:207-308 | A Joker outside an open action changes nothing. Deck, columns and turn are never changed. |
| Specials.JokerAlone | src/store/gameStore.ts:265-303 | The Joker goes to the end of the discard pile and leaves hand and reserve by id. The action is consumed with one card. Healing sets health and maximum to the old health plus two; attacking keeps both. |
| Specials.SoloDispatch | src/store/gameStore.ts:213-263 | Without a Queen-and-Joker pair selected, an open Joker action is the Joker played alone. |
| Specials.JokerSoloConserves | src/store/gameStore.ts:265-303 | A held Joker played alone loses and invents no card. |
| Specials.JokerWithQueen | src/store/gameStore.ts:213-262 | With a Queen and a Joker selected, healing discards both and sets health and maximum to the old maximum plus four. Attacking only opens the challenge with that Queen and leaves the action unplayed and the cards in place. |
| Specials.QueenJokerHeal | src/store/gameStore.ts:218-247 | Health and maximum become the old maximum plus four. The selection is filtered out of hand and reserve, and the Queen and the Joker are appended to the discard pile. The action is consumed with two cards and the phase is action. Deck, columns and turn are kept. |
| Specials.QueenJokerAttack | src/store/gameStore.ts:248-260 | Opens the challenge with the Queen and makes the message clickable. Player, selection, action flag, phase, deck, columns and turn are kept. |
| Specials.QueenHealConserves | src/store/gameStore.ts:217-247 | Healing with a held Queen and Joker loses and invents no card. |
| Specials.HandleQueenChallenge | src/store/gameStore.ts:1136-1178 | Has no phase guard; without a selected Queen and Joker nothing changes. Otherwise the maximum grows by 5 for a correct answer and by 1 otherwise, and health is set to it. Both cards are discarded and the challenge closes. Deck, columns and phase are kept. |
| Specials.ChallengeAnswered | src/store/gameStore.ts:1143-1176 | The maximum grows by 5 for a correct answer and by 1 otherwise, and health is set to it. The selection is filtered out of hand and reserve, and the Queen and the Joker are appended to the discard pile. The challenge closes, and deck, columns, phase and turn are kept. |
| Specials.AttackThenChallenge | src/store/gameStore.ts:248-260 | The attack opens the challenge and the answer closes it. A correct answer ends with 4 more health than a wrong one. |
| Specials.ChallengeConserves | src/store/gameStore.ts:1136-1178 | Answering with a held Queen and Joker loses and invents no card. |
| Sevens.HandleSevenAction | src/store/actions/sevenActions.ts:6-98 | Outside an open action, or for a non-7, nothing changes. Otherwise the 7 guards its suit's column: slot, kind '7' and blocked reserve, with the cards untouched. Other columns are unchanged. The action is consumed with one card and the phase stays action. |
| Sevens.SevenActionConserves | src/store/actions/sevenActions.ts:36-78 | For a held 7, the multiset of all cards is preserved. |
| Sevens.SevenActionKeepsCaps | src/store/actions/sevenActions.ts:27-53 | The 7's own zone keeps its size when a slot card comes back and shrinks by one otherwise. The other zone is untouched, so capacities are kept. |
| Sevens.SevenActionReturnsSlotCard | src/store/actions/sevenActions.ts:46-78 | The displaced slot card is held afterwards, the 7 is not, and the slot holds the 7. |
| Exchange.ExchangeRefusal | src/store/actions/exchangeActions.ts:16-30 | Refuses exactly when the two cards have equal value and suit, or are two Jokers of one colour. |
| Exchange.HandleActivatorExchange | src/store/actions/exchangeActions.ts:6-70 | Does nothing outside an open action or for non-activators. A refusal changes only the message. Nothing changes when no slot holds the column card. Otherwise the found column, with the player's card in its slot, is written at `suit`, and every other column is unchanged. |
| Exchange.StoreActivatorExchange | src/store/gameStore.ts:1182-1244 | The store's own handler, the one the program runs, returns the state, or the state with only a new message. |
| Exchange.StoreExchangeAsWritten | src/store/gameStore.ts:1182-1244 | The store's own handler agrees with the working exchange wherever the exchange does not go through; where it does, the store's handler throws and leaves the action unplayed. |
| Exchange.ExchangePlayerIsSwap | src/store/actions/exchangeActions.ts:40-49 | For a held card, the new player is the card swapped for the column card in the card's own zone. |
| Exchange.ExchangeConserves | src/store/actions/exchangeActions.ts:33-67 | When `suit` is the key of the column whose slot holds the column card, the exchange loses and invents no card. |
| Exchange.ExchangeKeepsSizes | src/store/actions/exchangeActions.ts:40-49 | Hand and reserve keep their sizes. The column card is held afterwards and the player's card is not. |
| ExchangeButton.ButtonFor | src/components/CardExchangeButton.tsx:26-79 | The exchange is offered exactly when it is open, and the placement exactly when it is allowed and the exchange is not. |
| ExchangeButton.ClickExchange | src/components/CardExchangeButton.tsx:36-60 | The intended click: when the slot card is an activator, pressing the exchange button is the working activator exchange; otherwise nothing changes. |
| ExchangeButton.ClickExchangeAsWritten | src/components/CardExchangeButton.tsx:44-51 | The click as the program runs it, through the store's own handler: the state, or the state with only a new message. |
| ExchangeButton.ClickExchangeAsWrittenIsInert | src/components/CardExchangeButton.tsx:44-51 | As written, a click on an exchange the handler accepts changes nothing, while the intended click plays the action and hands the player the slot card in place of their own. |
| ExchangeButton.PickSeven | src/components/CardExchangeButton.tsx:94-105 | Returns a 7 of the key's suit: the first one in the hand when the hand has one, else one from the reserve when the reserve has one, else the slot's, and none exactly when none of them has one. |
| ExchangeButton.PlaceWithRefused | src/components/CardExchangeButton.tsx:107-170 | With the 7's zone at capacity and a slot card, only the limit message is shown. |
| ExchangeButton.PlaceWith | src/components/CardExchangeButton.tsx:107-170 | Unless the 7's zone is at capacity with a slot card, the column gets the 7 on top, its slot and kind cleared and its reserve blocked, and the action is played. |
| ExchangeButton.ClickButton | src/components/CardExchangeButton.tsx:36-170 | With no button nothing changes, and deck and turn are never changed. |
| ExchangeButton.PlaceDispatch | src/components/CardExchangeButton.tsx:94-170 | A placement that goes through writes the 7-topped column at its sixth card's suit, rebuilds the player from the 7's origin, and plays the action. |
| ExchangeButton.ButtonPlayerIsSwap | src/components/CardExchangeButton.tsx:133-152 | When the zone has room, the button's player is the 7 swapped for the slot card in its own zone. |
| ExchangeButton.PlaceConserves | src/components/CardExchangeButton.tsx:94-170 | A placement on the column the store holds at that key loses and invents no card. |
| ExchangeButton.PlaceRefused | src/components/CardExchangeButton.tsx:107-118 | A placement that does not go through changes neither the player nor the columns. |
| ExchangeButton.PlaceKeepsCaps | src/components/CardExchangeButton.tsx:133-152 | A placement keeps hand at most 5 and reserve at most 2. |
| Revolution.RevolutionWith | src/store/gameStore.ts:1370-1424 | Has no guard. The board is rebuilt column by column on the same keys: each column keeps its non-low cards in order and its non-low slot card; flags and activator are reset. The low cards are appended to the discard pile. The phase becomes discard when 7 or more cards are held and draw otherwise. |
| Revolution.RevolutionClearsLowCards | src/store/gameStore.ts:1372-1397 | After the intended revolution no column holds an Ace or numbered card, in its cards or its slot. Every other card stays in order. Every column is unlocked, unblocked, not lucky and faceless. |
| Revolution.RevolutionConserves | src/store/gameStore.ts:1373-1419 | The cards in play afterwards, plus the face cards on the board, are exactly the cards before: only face cards leave play. |
| Revolution.RevolutionTwice | src/store/gameStore.ts:1373-1406 | A second revolution finds nothing more to discard and leaves the board as it was. |
| Revolution.AsWrittenLowIsAceOnly | src/store/gameStore.ts:1365-1368 | The written range test is lexicographic and selects, among the deck's values, the Ace only. |
| Revolution.AsWrittenKeepsFive | src/store/gameStore.ts:1365-1368 | A five in a column survives the test as written, while the intended test discards it. |
| Revolution.AsWrittenRevolutionIsInert | src/store/gameStore.ts:1362-1426 | For a board with an Ace of hearts, the handler as written keeps the Ace; the intended one moves it to the discard pile. |
| Queries.CanSelectCardIsHeld | src/store/gameStore.ts:664-670 | A card can be selected exactly when its id is held. |
| Queries.JokerPlayableGuards | src/store/gameStore.ts:672-682 | A playable Joker's heal always plays the action. A Joker the guard refuses changes nothing. |
| Queries.CanPlayCardsGuards | src/store/gameStore.ts:694-700 | When cards cannot be played, the seven's action, the exchange and the skip change nothing. |
| Queries.CanEndTurnIsPassGuard | src/store/gameStore.ts:876-882 | The turn can be ended, by the method as declared, exactly when passing it changes the state. |

## Left out

- I/O, rendering, the zustand plumbing, and the `t(…)` localisation: messages are an enumerated key, and the message text is not modelled.
- `shuffleDeck`, `drawCards` and `createDeck` live in a deck module that is not part of this model. They are a parameter `DeckOps` constrained by `Deck.Lawful`: shuffling is a permutation, and drawing splits the pile, drawing at most n. Randomness is therefore not modelled.
- `handleNewGame` only calls `initializeGame`; `getPhaseMessage` and `updatePhaseAndMessage` produce text only.
- Left out as plain setters or debugging aids: `setAttackMode`, `setMessage`, `setPhase`, `setLanguage`, `clearMessage`, `debugGiveJokers` and `updateProfile`. The last reads files asynchronously.
- `canExchangeCard` in the game-logic service is a constant `true`, and `canPerformActions` (src/store/gameStore.ts:684-692) is always true, because the phase type has no end-turn phase.
- The `canEndTurn` field (src/store/gameStore.ts:102) is overridden in the initial store by the method of the same name (line 876). Several handlers then return `canEndTurn: true`: src/store/gameStore.ts lines 245, 284, 301, 409, 822, 1044, 1125, 1175 and 1347, and src/store/actions/sevenActions.ts:85. These are the Joker actions, the skip, the strategic shuffle, the 7 at position 7, the Queen combination, the Queen challenge and the seven's action. The store's shallow merge writes that boolean over the method, so from the first such write on, `canEndTurn` is the constant `true` and calling it fails. No handler restores the method. These writes are not modelled. `Queries.CanEndTurn` models the method as declared, which matches the program only until the first such write.
- The first `handleDiscard` (src/store/gameStore.ts:474-520) is shadowed by the later definition in the same object literal and never runs.
- `handleStrategicShuffleAction` (src/store/gameStore.ts:851-874) is not modelled: it drops the old hand, and no command listed here calls it.
- The store object (src/store/gameStore.ts:68) never spreads `createExchangeActions` or `createSevenActions`, although it imports them (lines 9-10), so the program runs the store's own handlers. The store's `handleActivatorExchange` (src/store/gameStore.ts:1182-1244) is modelled as written by `Exchange.StoreActivatorExchange`: only its refusal messages take effect. The working version in src/store/actions/exchangeActions.ts is modelled as the corrected behaviour (see "## Findings").
- The store's own `handleSevenAction` (src/store/gameStore.ts:1268-1360), which is the one the program runs, computes what src/store/actions/sevenActions.ts computes. It is modelled once, from the latter.
- The lone-card branch of `handleCardPlace` (src/store/gameStore.ts:1049-1072) refers to `newHand` and `newReserve`, which are out of scope. It throws, so it is modelled as leaving the state unchanged.
- The debug panel in src/components/CardExchangeButton.tsx (lines 183-261) is not modelled, because it writes the store directly.
- Object aliasing is not modelled: the Queen combination mutates a column object shared with the old state, and the model treats every column as a value.
- Sevens.HandleSevenAction: a column absent from the board is read as an empty column. There the source spreads `undefined`, so its column has no `cards`, `hasLuckyCard`, `isLocked` or face-card fields; the model fills them with an empty sequence, `false`, `false` and no face card. The case does not arise, because every 7's suit is one of the four column keys the game creates.
- Exchange.ExchangeConserves: conservation is stated only when `suit` is the key of the column whose slot holds the column card. For another `suit`, the source copies that column under a second key, so a card appears twice.
- ExchangeButton.PlaceConserves: conservation is stated only when the button's column is the one the store holds at its sixth card's suit, because the handler writes the button's copy back.
- Revolution.RevolutionConserves: the face cards on the board leave play, because the rebuilt column carries no face cards and the handler does not discard them. The lemma states that loss exactly rather than full conservation.
- Placement.AceConserves: full conservation holds only for an empty column with an empty slot. The Ace's branch also opens a column that is not yet lucky but holds cards or a slot card (a 7 placed by the seven's action on an empty column, say). Those cards are overwritten and leave play, so the lemma states that loss exactly.
- Placement.QueenConserves: stated for a held activator that no slot holds, and `Placement.QueenFromSlotConserves` covers an activator taken from a slot and not held. The one case left is an activator that is held while a slot also holds its id, which needs two cards with one id. There the slot card leaves the board while the held activator goes to the discard pile, so a card is lost.
- Placement.FaceConserves: stated only when the face card's place in its column is free; the source overwrites an occupied place without a check, and the old face card would be lost. In play the place is free: each suit has one Jack and one King, a face card attaches only to its own suit's column, and no operation returns an attached face card to hand, reserve or discard pile. The exception is a column copied under another key, the case admitted under Exchange.ExchangeConserves and ExchangeButton.PlaceConserves.
- Placement.SevenConserves: stated only for a column of at most seven cards. At position 7 of a longer column the 7 replaces a card, which is lost.

## Findings

| source | as written | input that shows it | evidently intended | confidence | as-written member | corrected member |
|---|---|---|---|---|---|---|
| src/store/gameStore.ts:1365 | `handleRevolution` filters the undeclared `VALUES`, so the update throws and the store keeps its state | any state, e.g. an Ace of hearts alone in the hearts column | the deck's values, so that the low cards leave the board | not executed | Revolution.AsWrittenRevolutionIsInert | Revolution.RevolutionClearsLowCards |
| src/store/gameStore.ts:1365-1368 | the range test `value >= '2' && value <= '10'` compares strings lexicographically, and '10' < '2', so only the Ace is selected | the five of hearts in a column: it stays on the board | the Ace and every rank from two to ten | not executed | Revolution.AsWrittenKeepsFive | Revolution.RevolutionClearsLowCards |
| src/store/gameStore.ts:1216-1222 | the store's `handleActivatorExchange`, the one the exchange button calls, pushes onto `newHand` or `newReserve`, which it never declares, so an accepted exchange throws and the state is unchanged | a 7 of clubs selected from the hand and a Joker in the hearts slot, in an open action: the button is offered, the click does nothing | the exchange of src/store/actions/exchangeActions.ts: the player's card goes to the slot, the slot card to the player's zone, and the action is played | not executed | ExchangeButton.ClickExchangeAsWrittenIsInert | ExchangeButton.ClickExchange |
