/**
 * The store's read-only questions the interface asks before offering a
 * move, and how they line up with the guards of the transitions they front.
 */
module Queries {

  import opened Cards
  import opened Zones
  import opened Game
  import opened Turn
  import opened Specials
  import opened Sevens
  import opened Exchange

  /** A card can be selected when hand or reserve holds its identifier. */
  predicate CanSelectCard(s: State, card: Card)
  {
    HasId(s.currentPlayer.hand, card.id) || HasId(s.currentPlayer.reserve, card.id)
  }

  /** Selectable cards are exactly those whose identifier is held. */
  lemma CanSelectCardIsHeld(s: State, card: Card)
    ensures CanSelectCard(s, card) <==> card.id in IdsOf(Held(s))
  {
    HasIdIsIdsOf(s.currentPlayer.hand, card.id);
    HasIdIsIdsOf(s.currentPlayer.reserve, card.id);
    var h, v := s.currentPlayer.hand, s.currentPlayer.reserve;
    assert forall c :: c in h + v <==> c in h || c in v;
    assert IdsOf(h + v) == IdsOf(h) + IdsOf(v);
  }

  /** A Joker can be played: a held Joker, in the action phase, before the action is played. */
  predicate JokerPlayable(s: State, joker: Card)
  {
    && IsJoker(joker) && s.phase == Action && !s.hasPlayedAction
    && (HasId(s.currentPlayer.hand, joker.id) || HasId(s.currentPlayer.reserve, joker.id))
  }

  /**
   * Healing with a playable Joker always plays the action, and a Joker the
   * query refuses for its kind, the phase or a played action changes nothing.
   */
  lemma JokerPlayableGuards(s: State, joker: Card, move: JokerMove)
    ensures JokerPlayable(s, joker) ==> HandleJokerAction(s, joker, Heal).hasPlayedAction
    ensures !CanPlayJoker(s, joker) ==> HandleJokerAction(s, joker, move) == s
    ensures JokerPlayable(s, joker) ==> CanPlayJoker(s, joker)
  {
  }

  /** Cards can be played in the action phase before the action is played. */
  predicate CanPlayCards(s: State)
  {
    s.phase == Action && !s.hasPlayedAction
  }

  /** Outside `CanPlayCards`, the seven's action and the activator exchange change nothing. */
  lemma CanPlayCardsGuards(s: State, seven: Card, suit: Suit, columnCard: Card, playerCard: Card)
    requires !CanPlayCards(s)
    ensures HandleSevenAction(s, seven) == s
    ensures HandleActivatorExchange(s, suit, columnCard, playerCard) == s
    ensures HandleSkipAction(s) == s
  {
  }

  /** The `canEndTurn` method as declared: the turn can be ended in the action phase once the action is played. */
  predicate CanEndTurn(s: State)
  {
    s.phase == Action && s.hasPlayedAction
  }

  /** Passing the turn does something exactly when the turn can be ended. */
  lemma CanEndTurnIsPassGuard(s: State)
    ensures CanEndTurn(s) <==> HandlePassTurn(s) != s
  {
    if CanEndTurn(s) {
      assert !HandlePassTurn(s).hasPlayedAction;
    }
  }
}
