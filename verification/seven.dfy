/**
 * The seven's own action: a held seven takes the guarded slot of its suit's
 * column, and the card it displaces returns to the zone the seven came from.
 */
module Sevens {

  import opened Wrappers
  import opened Cards
  import opened Zones
  import opened Game
  import opened Placement

  /** The seven's action is open: a seven, in the action phase, before the action is played. */
  predicate CanPlaySeven(s: State, seven: Card)
  {
    IsSeven(seven) && s.phase == Action && !s.hasPlayedAction
  }

  /** The seven's suit column after the action: the seven guards it and blocks its reserve. */
  function GuardedBySeven(col: Column, seven: Card): Column
  {
    col.(reserveSuit := Some(seven), activatorType := Some(SevenActivator), isReserveBlocked := true)
  }

  /**
   * Play a seven on its suit's column. An absent column is read as an empty
   * one. The seven leaves the hand when the hand holds its identifier and the
   * reserve otherwise, and the previous slot card, if any, joins that zone.
   */
  function HandleSevenAction(s: State, seven: Card): (r: State)
    ensures !CanPlaySeven(s, seven) ==> r == s
    ensures CanPlaySeven(s, seven) ==>
              && seven.suit in r.columns
              && r.columns[seven.suit] == GuardedBySeven(ColumnOf(s.columns, seven.suit), seven)
              && (forall t :: t != seven.suit ==> SameColumn(r.columns, s.columns, t))
              && r.selectedCards == [] && r.hasPlayedAction && r.playedCardsLastTurn == 1 && r.phase == Action
              && r.currentPlayer.discardPile == s.currentPlayer.discardPile
              && r.currentPlayer.health == s.currentPlayer.health
    ensures r.deck == s.deck && r.turn == s.turn && r.queenChallenge == s.queenChallenge
  {
    if !CanPlaySeven(s, seven) then s
    else
      var col := ColumnOf(s.columns, seven.suit);
      s.(currentPlayer := SwapIntoOrigin(s.currentPlayer, seven, SlotCards(col)),
         columns := s.columns[seven.suit := GuardedBySeven(col, seven)],
         selectedCards := [], hasPlayedAction := true, playedCardsLastTurn := 1,
         message := if col.reserveSuit.Some? then SevenSwapped else SevenPlaced, phase := Action)
  }

  /**
   * Swapping a held card for `back` changes only the zone that held it, and
   * that zone's size by `|back| - 1`.
   */
  lemma SwapIntoOriginSizes(p: Player, out: Card, back: seq<Card>)
    requires out in p.hand + p.reserve && DistinctIds(p.hand + p.reserve)
    ensures var q := SwapIntoOrigin(p, out, back);
            out in p.hand ==> |q.hand| == |p.hand| - 1 + |back| && q.reserve == p.reserve
    ensures var q := SwapIntoOrigin(p, out, back);
            out !in p.hand ==> |q.reserve| == |p.reserve| - 1 + |back| && q.hand == p.hand
  {
    HeldOnce(p.hand, p.reserve, out);
    HasIdIsIdsOf(p.hand, out.id);
    if out in p.hand {
      RemoveOne(p.hand, out);
    } else {
      RemoveOne(p.reserve, out);
    }
  }

  /**
   * The seven's action on a held seven loses and invents no card: the seven
   * moves to the slot and the slot's previous card to the seven's zone.
   */
  lemma SevenActionConserves(s: State, seven: Card)
    requires seven in Held(s) && DistinctIds(Held(s))
    ensures AllCards(HandleSevenAction(s, seven)) == AllCards(s)
  {
    if CanPlaySeven(s, seven) {
      var p := s.currentPlayer;
      var col := ColumnOf(s.columns, seven.suit);
      var back := SlotCards(col);
      var q := SwapIntoOrigin(p, seven, back);
      var ncol := GuardedBySeven(col, seven);
      var a, b := multiset{seven}, multiset(back);
      assert ZonesMs(q) + a == ZonesMs(p) + b by {
        SwapIntoOriginMs(p, seven, back);
      }
      assert ColumnMs(ncol) + b == PartMs(s.columns, seven.suit) + a by {
        SlotSwapMs(col, ncol, seven);
        assert PartMs(s.columns, seven.suit) == ColumnMs(col);
      }
      Balance(ZonesMs(q), ZonesMs(p), ColumnMs(ncol), PartMs(s.columns, seven.suit), a, b);
      MoveConserves(s, q, seven.suit, ncol);
    }
  }

  /**
   * A held seven leaves the other zone alone; its own zone keeps its size
   * when the displaced card takes its place and shrinks by one otherwise, so
   * hand and reserve stay within their capacities.
   */
  lemma SevenActionKeepsCaps(s: State, seven: Card)
    requires CanPlaySeven(s, seven) && seven in Held(s) && DistinctIds(Held(s))
    ensures var r := HandleSevenAction(s, seven);
            var back := |SlotCards(ColumnOf(s.columns, seven.suit))|;
            && (seven in s.currentPlayer.hand ==>
                  |r.currentPlayer.hand| == |s.currentPlayer.hand| - 1 + back
                  && r.currentPlayer.reserve == s.currentPlayer.reserve)
            && (seven !in s.currentPlayer.hand ==>
                  |r.currentPlayer.reserve| == |s.currentPlayer.reserve| - 1 + back
                  && r.currentPlayer.hand == s.currentPlayer.hand)
    ensures WithinCaps(s) ==> WithinCaps(HandleSevenAction(s, seven))
  {
    SwapIntoOriginSizes(s.currentPlayer, seven, SlotCards(ColumnOf(s.columns, seven.suit)));
  }

  /**
   * The displaced card comes back to the seven's zone: after the action the
   * player holds it (when the slot was filled) and no longer holds the seven.
   */
  lemma SevenActionReturnsSlotCard(s: State, seven: Card)
    requires CanPlaySeven(s, seven) && seven in Held(s) && DistinctIds(Held(s))
    requires ColumnOf(s.columns, seven.suit).reserveSuit != Some(seven)
    ensures var r := HandleSevenAction(s, seven);
            var oldSlot := ColumnOf(s.columns, seven.suit).reserveSuit;
            && (oldSlot.Some? ==> oldSlot.value in Held(r))
            && seven !in Held(r)
            && r.columns[seven.suit].reserveSuit == Some(seven)
  {
    var p := s.currentPlayer;
    var back := SlotCards(ColumnOf(s.columns, seven.suit));
    HeldOnce(p.hand, p.reserve, seven);
    HasIdIsIdsOf(p.hand, seven.id);
    var r := HandleSevenAction(s, seven);
    if seven in p.hand {
      assert r.currentPlayer.hand == WithoutIds(p.hand, {seven.id}) + back;
      assert seven !in WithoutIds(p.hand, {seven.id});
      assert seven !in p.reserve;
    } else {
      assert r.currentPlayer.reserve == WithoutIds(p.reserve, {seven.id}) + back;
      assert seven !in WithoutIds(p.reserve, {seven.id});
      assert seven !in p.hand;
    }
  }
}
