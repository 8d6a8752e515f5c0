/**
 * Refilling the draw pile: recycling the discard pile when the pile is
 * empty, and the strategic shuffle that trades the hand and the discard pile
 * for five fresh cards once per turn.
 */
module Shuffle {

  import opened Cards
  import opened Deck
  import opened Game

  /**
   * When the draw pile is empty and the discard pile is not, the discard pile
   * is shuffled into a new draw pile; otherwise nothing happens.
   */
  function RecycleDiscardPile(s: State, ops: DeckOps): (r: State)
    requires Lawful(ops)
    ensures |s.deck| > 0 || |s.currentPlayer.discardPile| == 0 ==> r == s
    ensures |s.deck| == 0 && |s.currentPlayer.discardPile| > 0 ==>
              && IsPermutation(r.deck, s.currentPlayer.discardPile)
              && |r.deck| == |s.currentPlayer.discardPile|
              && r.currentPlayer.discardPile == []
              && r.currentPlayer == s.currentPlayer.(discardPile := [])
              && r == s.(deck := r.deck, currentPlayer := r.currentPlayer)
  {
    if |s.deck| > 0 || |s.currentPlayer.discardPile| == 0 then s
    else
      var d := ops.shuffle(s.currentPlayer.discardPile);
      assert IsPermutation(d, s.currentPlayer.discardPile);
      assert |multiset(d)| == |multiset(s.currentPlayer.discardPile)|;
      s.(deck := d, currentPlayer := s.currentPlayer.(discardPile := []))
  }

  /** Recycling loses and invents no card, and afterwards the draw pile is empty only if both piles were. */
  lemma RecycleConserves(s: State, ops: DeckOps)
    requires Lawful(ops)
    ensures AllCards(RecycleDiscardPile(s, ops)) == AllCards(s)
    ensures |RecycleDiscardPile(s, ops).deck| == 0 <==> |s.deck| == 0 && |s.currentPlayer.discardPile| == 0
  {
    var r := RecycleDiscardPile(s, ops);
    if |s.deck| == 0 && |s.currentPlayer.discardPile| > 0 {
      var p := s.currentPlayer;
      assert multiset(s.deck) == multiset{};
      assert LooseMs(r) == multiset(p.discardPile) + multiset(p.hand) + multiset(p.reserve);
      assert LooseMs(s) == multiset(p.hand) + multiset(p.reserve) + multiset(p.discardPile);
    }
  }

  /**
   * The strategic shuffle is open only at the start of a turn, before
   * discarding, drawing or acting, and once per turn.
   */
  predicate CanUseStrategicShuffle(s: State)
  {
    && s.phase == Discard
    && !s.hasDiscarded
    && !s.hasDrawn
    && !s.hasPlayedAction
    && !s.currentPlayer.hasUsedStrategicShuffle
  }

  /**
   * Shuffle the draw pile, the hand and the discard pile together and draw a
   * new hand of up to five. The turn jumps to the action phase; the first
   * strategic shuffle of the game leaves the action to be played, later ones
   * consume it.
   */
  function HandleStrategicShuffle(s: State, ops: DeckOps): (r: State)
    requires Lawful(ops)
    ensures !CanUseStrategicShuffle(s) ==> r == s
    ensures CanUseStrategicShuffle(s) ==>
              && multiset(r.deck) + multiset(r.currentPlayer.hand)
                 == multiset(s.deck) + multiset(s.currentPlayer.hand) + multiset(s.currentPlayer.discardPile)
              && |r.currentPlayer.hand| <= MaxHand
              && r.currentPlayer.discardPile == []
              && r.currentPlayer.reserve == s.currentPlayer.reserve
              && r.columns == s.columns
              && r.currentPlayer.hasUsedStrategicShuffle && r.hasUsedFirstStrategicShuffle
              && r.phase == Action && r.hasDiscarded && r.hasDrawn
              && (r.hasPlayedAction <==> s.hasUsedFirstStrategicShuffle)
              && r.currentPlayer.health == s.currentPlayer.health
              && r.selectedCards == s.selectedCards && r.turn == s.turn
  {
    if !CanUseStrategicShuffle(s) then s
    else
      var p := s.currentPlayer;
      var pool := s.deck + (p.hand + p.discardPile);
      var out := ops.draw(ops.shuffle(pool), MaxHand);
      ShuffleThenDraw(ops, pool, MaxHand);
      assert multiset(pool) == multiset(s.deck) + multiset(p.hand) + multiset(p.discardPile);
      var q := p.(hand := out.1, discardPile := [], hasUsedStrategicShuffle := true);
      if !s.hasUsedFirstStrategicShuffle then
        s.(deck := out.0, currentPlayer := q, hasUsedFirstStrategicShuffle := true,
           phase := Action, hasDiscarded := true, hasDrawn := true, hasPlayedAction := false,
           message := ShuffleFirst, isMessageClickable := true)
      else
        s.(deck := out.0, currentPlayer := q,
           phase := Action, hasDiscarded := true, hasDrawn := true, hasPlayedAction := true,
           message := ShuffleNext, isMessageClickable := true)
  }

  /** The strategic shuffle loses and invents no card. */
  lemma StrategicShuffleConserves(s: State, ops: DeckOps)
    requires Lawful(ops)
    ensures AllCards(HandleStrategicShuffle(s, ops)) == AllCards(s)
  {
    var r := HandleStrategicShuffle(s, ops);
    if CanUseStrategicShuffle(s) {
      var p, q := s.currentPlayer, r.currentPlayer;
      var D, H, R, P := multiset(s.deck), multiset(p.hand), multiset(p.reserve), multiset(p.discardPile);
      var D', H' := multiset(r.deck), multiset(q.hand);
      assert D' + H' == D + H + P;
      assert LooseMs(r) == D' + H' + R + multiset{};
      assert LooseMs(s) == D + H + R + P;
    }
  }

  /** A second strategic shuffle in the same turn changes nothing. */
  lemma StrategicShuffleOncePerTurn(s: State, ops: DeckOps)
    requires Lawful(ops)
    ensures !CanUseStrategicShuffle(HandleStrategicShuffle(s, ops))
    ensures HandleStrategicShuffle(HandleStrategicShuffle(s, ops), ops) == HandleStrategicShuffle(s, ops)
  {
  }

  /**
   * Confirming a strategic shuffle returns the discard pile and the hand to
   * the draw pile, shuffled, and ends the action in the discard phase.
   */
  function ConfirmStrategicShuffle(s: State, ops: DeckOps): (r: State)
    requires Lawful(ops)
    ensures IsPermutation(r.deck, s.deck + s.currentPlayer.discardPile + s.currentPlayer.hand)
    ensures r.currentPlayer.hand == [] && r.currentPlayer.discardPile == []
    ensures r.currentPlayer.reserve == s.currentPlayer.reserve && r.columns == s.columns
    ensures r.phase == Discard && r.hasDiscarded && r.hasPlayedAction && !r.awaitingStrategicShuffleConfirmation
    ensures r.hasDrawn == s.hasDrawn && r.turn == s.turn
  {
    var p := s.currentPlayer;
    var d := ops.shuffle(s.deck + p.discardPile + p.hand);
    assert IsPermutation(d, s.deck + p.discardPile + p.hand);
    s.(deck := d, currentPlayer := p.(hand := [], discardPile := []),
       phase := Discard, hasDiscarded := true, hasPlayedAction := true,
       awaitingStrategicShuffleConfirmation := false, message := ShuffleNext)
  }

  /** Confirming a strategic shuffle loses and invents no card. */
  lemma ConfirmConserves(s: State, ops: DeckOps)
    requires Lawful(ops)
    ensures AllCards(ConfirmStrategicShuffle(s, ops)) == AllCards(s)
  {
    var r := ConfirmStrategicShuffle(s, ops);
    var p := s.currentPlayer;
    var D, H, R, P := multiset(s.deck), multiset(p.hand), multiset(p.reserve), multiset(p.discardPile);
    assert multiset(r.deck) == D + P + H;
    assert LooseMs(r) == (D + P + H) + multiset{} + R + multiset{};
    assert LooseMs(s) == D + H + R + P;
  }
}
