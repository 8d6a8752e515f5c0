/**
 * The turn cycle: selection, drawing, discarding, passing and ending the
 * turn, starting the game, skipping the action, surrendering, and moving
 * cards between hand and reserve.
 */
module Turn {

  import opened Wrappers
  import opened Cards
  import opened Zones
  import opened Deck
  import opened Game

  // ---------------------------------------------------------------- selection

  /** The advisory key shown after a selection grows. */
  function SelectionAdvice(sel: seq<Card>): Msg
  {
    if |sel| == 1 then
      if IsAce(sel[0]) then SelectActivator
      else if IsActivator(sel[0]) then SelectAce
      else NoMessage
    else if |sel| == 2 then
      if (IsAce(sel[0]) || IsAce(sel[1])) && (IsActivator(sel[0]) || IsActivator(sel[1])) then TapColumn
      else NoMessage
    else NoMessage
  }

  /**
   * Toggle a card in the selection. Nothing changes once the action is played;
   * a selected card is removed; an unselected one is added only below two.
   */
  function SelectCard(s: State, card: Card): (r: State)
    ensures s.hasPlayedAction ==> r == s
    ensures |r.selectedCards| > |s.selectedCards| ==> |r.selectedCards| <= 2
    ensures !s.hasPlayedAction && card.id in IdsOf(s.selectedCards) ==>
              card.id !in IdsOf(r.selectedCards)
              && forall c :: c in r.selectedCards <==> c in s.selectedCards && c.id != card.id
    ensures !s.hasPlayedAction && card.id !in IdsOf(s.selectedCards) && |s.selectedCards| < 2 ==>
              r.selectedCards == s.selectedCards + [card]
    ensures !s.hasPlayedAction && card.id !in IdsOf(s.selectedCards) && |s.selectedCards| >= 2 ==> r == s
  {
    if s.hasPlayedAction then s
    else if card.id in IdsOf(s.selectedCards) then
      s.(selectedCards := Deselect(s.selectedCards, card), message := NoMessage)
    else if |s.selectedCards| >= 2 then s
    else
      var sel := s.selectedCards + [card];
      s.(selectedCards := sel, message := SelectionAdvice(sel))
  }

  /** Selecting touches only the selection and the message. */
  lemma SelectCardFrame(s: State, card: Card)
    ensures var r := SelectCard(s, card);
            r == s.(selectedCards := r.selectedCards, message := r.message)
  {
  }

  /** The selection without `card`, matched by identifier. */
  function Deselect(sel: seq<Card>, card: Card): (r: seq<Card>)
    ensures |r| <= |sel| && card.id !in IdsOf(r)
    ensures forall c :: c in r <==> c in sel && c.id != card.id
  {
    WithoutIdsDropsIds(sel, {card.id});
    WithoutIds(sel, {card.id})
  }

  /** Appending a card whose id is new and then filtering that id out gives back the original. */
  lemma AppendThenRemove(z: seq<Card>, card: Card)
    requires card.id !in IdsOf(z)
    ensures WithoutIds(z + [card], {card.id}) == z
  {
    WithoutIdsConcat(z, [card], {card.id});
    WithoutAbsentIds(z, {card.id});
    assert WithoutIds([card], {card.id}) == [];
  }

  /** Selecting an unselected card and then selecting it again restores the prior selection. */
  lemma SelectTwiceRestores(s: State, card: Card)
    requires !s.hasPlayedAction && card.id !in IdsOf(s.selectedCards) && |s.selectedCards| < 2
    ensures SelectCard(SelectCard(s, card), card).selectedCards == s.selectedCards
  {
    var sel := s.selectedCards;
    var mid := SelectCard(s, card);
    assert mid.selectedCards == sel + [card] && !mid.hasPlayedAction;
    assert card in sel + [card];
    assert card.id in IdsOf(mid.selectedCards);
    AppendThenRemove(sel, card);
  }

  /** Deselecting a selected card and selecting it again restores the selection as a set. */
  lemma DeselectThenSelectRestores(s: State, card: Card)
    requires !s.hasPlayedAction && card in s.selectedCards && |s.selectedCards| <= 2
    requires DistinctIds(s.selectedCards)
    ensures var r := SelectCard(SelectCard(s, card), card);
            forall c :: c in r.selectedCards <==> c in s.selectedCards
  {
    var sel := s.selectedCards;
    assert card.id in IdsOf(sel);
    var mid := SelectCard(s, card);
    assert mid.selectedCards == WithoutIds(sel, {card.id});
    RemoveOne(sel, card);
    assert |mid.selectedCards| < 2;
    assert card.id !in IdsOf(mid.selectedCards);
    var r := SelectCard(mid, card);
    assert r.selectedCards == mid.selectedCards + [card];
    forall c | c in sel && c.id == card.id ensures c == card {
      var i :| 0 <= i < |sel| && sel[i] == c;
      var j :| 0 <= j < |sel| && sel[j] == card;
      assert i == j;
    }
  }

  // ---------------------------------------------------------------- drawing

  function Min(a: int, b: int): int { if a < b then a else b }

  /** Free places in a zone of the given capacity (never negative). */
  function Space(count: int, cap: int): int { if cap - count > 0 then cap - count else 0 }

  /**
   * Deal drawn cards one by one: to the hand while it has fewer than five,
   * otherwise to the reserve while it has fewer than two, otherwise nowhere.
   */
  function Distribute(hand: seq<Card>, reserve: seq<Card>, drawn: seq<Card>): (out: (seq<Card>, seq<Card>))
    decreases |drawn|
  {
    if |drawn| == 0 then (hand, reserve)
    else if |hand| < MaxHand then Distribute(hand + [drawn[0]], reserve, drawn[1..])
    else if |reserve| < MaxReserve then Distribute(hand, reserve + [drawn[0]], drawn[1..])
    else Distribute(hand, reserve, drawn[1..])
  }

  /** How many drawn cards the hand takes. */
  function HandShare(hand: seq<Card>, drawn: seq<Card>): nat
  {
    Min(|drawn|, Space(|hand|, MaxHand))
  }

  /** How many drawn cards the reserve takes after the hand. */
  function ReserveShare(hand: seq<Card>, reserve: seq<Card>, drawn: seq<Card>): nat
  {
    Min(|drawn| - HandShare(hand, drawn), Space(|reserve|, MaxReserve))
  }

  /**
   * Dealing one by one gives the hand the first drawn cards and the reserve
   * the next ones: the hand takes as many as it has room for, the reserve as
   * many of the rest as it has room for, and the remainder is dropped.
   */
  lemma {:induction false} DistributeShape(hand: seq<Card>, reserve: seq<Card>, drawn: seq<Card>)
    ensures var k, m := HandShare(hand, drawn), ReserveShare(hand, reserve, drawn);
            k + m <= |drawn|
            && Distribute(hand, reserve, drawn) == (hand + drawn[..k], reserve + drawn[k..k + m])
    decreases |drawn|
  {
    var k, m := HandShare(hand, drawn), ReserveShare(hand, reserve, drawn);
    if |drawn| == 0 {
      assert k == 0 && m == 0;
      assert drawn[..0] == [] && drawn[0..0] == [];
      assert hand + [] == hand && reserve + [] == reserve;
    } else if |hand| < MaxHand {
      var h' := hand + [drawn[0]];
      DistributeShape(h', reserve, drawn[1..]);
      assert HandShare(h', drawn[1..]) == k - 1;
      assert ReserveShare(h', reserve, drawn[1..]) == m;
      HeadSlice(drawn, k);
      TailSlice(drawn, k, k + m);
      assert h' + drawn[1..][..k - 1] == hand + ([drawn[0]] + drawn[1..][..k - 1]);
    } else if |reserve| < MaxReserve {
      var r' := reserve + [drawn[0]];
      DistributeShape(hand, r', drawn[1..]);
      assert k == 0 && HandShare(hand, drawn[1..]) == 0;
      assert ReserveShare(hand, r', drawn[1..]) == m - 1;
      HeadSlice(drawn, m);
      assert drawn[..0] == [] && drawn[1..][..0] == [];
      assert r' + drawn[1..][0..m - 1] == reserve + ([drawn[0]] + drawn[1..][0..m - 1]);
    } else {
      DistributeShape(hand, reserve, drawn[1..]);
      assert k == 0 && m == 0;
      assert drawn[..0] == [] && drawn[0..0] == [] && drawn[1..][..0] == [] && drawn[1..][0..0] == [];
    }
  }

  lemma HeadSlice(d: seq<Card>, k: nat)
    requires 1 <= k <= |d|
    ensures [d[0]] + d[1..][..k - 1] == d[..k]
    ensures [d[0]] + d[1..][0..k - 1] == d[0..k]
  {
  }

  lemma TailSlice(d: seq<Card>, i: nat, j: nat)
    requires 1 <= i <= j <= |d|
    ensures d[1..][i - 1..j - 1] == d[i..j]
  {
  }

  /**
   * Dealing no more cards than there are free places loses none of them and
   * never pushes a zone past its capacity.
   */
  lemma DistributeKeepsAll(hand: seq<Card>, reserve: seq<Card>, drawn: seq<Card>)
    requires |drawn| <= Space(|hand|, MaxHand) + Space(|reserve|, MaxReserve)
    ensures var out := Distribute(hand, reserve, drawn);
            multiset(out.0) + multiset(out.1) == multiset(hand) + multiset(reserve) + multiset(drawn)
    ensures var out := Distribute(hand, reserve, drawn);
            (|hand| <= MaxHand ==> |out.0| <= MaxHand) && (|reserve| <= MaxReserve ==> |out.1| <= MaxReserve)
  {
    var k, m := HandShare(hand, drawn), ReserveShare(hand, reserve, drawn);
    DistributeShape(hand, reserve, drawn);
    SplitDealMs(hand, reserve, drawn, k, m);
  }

  /** Splitting the whole of `drawn` at `k` between two zones keeps every card. */
  lemma SplitDealMs(hand: seq<Card>, reserve: seq<Card>, drawn: seq<Card>, k: nat, m: nat)
    requires k + m == |drawn|
    ensures multiset(hand + drawn[..k]) + multiset(reserve + drawn[k..k + m])
            == multiset(hand) + multiset(reserve) + multiset(drawn)
  {
    assert drawn == drawn[..k] + drawn[k..k + m];
  }

  /** Drawing from the pile and dealing the drawn cards moves cards from the pile to the zones only. */
  lemma DealConserves(deck: seq<Card>, hand: seq<Card>, reserve: seq<Card>, out: (seq<Card>, seq<Card>))
    requires IsDraw(deck, Space(|hand|, MaxHand) + Space(|reserve|, MaxReserve), out)
    ensures var dealt := Distribute(hand, reserve, out.1);
            multiset(out.0) + multiset(dealt.0) + multiset(dealt.1)
            == multiset(deck) + multiset(hand) + multiset(reserve)
  {
    DistributeKeepsAll(hand, reserve, out.1);
    var dealt := Distribute(hand, reserve, out.1);
    var D, H, R, X, H', R' := multiset(out.0), multiset(hand), multiset(reserve), multiset(out.1), multiset(dealt.0), multiset(dealt.1);
    assert H' + R' == H + R + X;
    assert D + X == multiset(deck);
    SumRegroup(D, H', R', H, R, X);
  }

  /** Dealing only appends: the old hand and reserve are prefixes of the new ones. */
  lemma DealAppends(hand: seq<Card>, reserve: seq<Card>, drawn: seq<Card>)
    ensures var dealt := Distribute(hand, reserve, drawn);
            hand <= dealt.0 && reserve <= dealt.1
  {
    DistributeShape(hand, reserve, drawn);
  }

  lemma SumRegroup(d: multiset<Card>, h': multiset<Card>, r': multiset<Card>, h: multiset<Card>, r: multiset<Card>, x: multiset<Card>)
    requires h' + r' == h + r + x
    ensures d + h' + r' == d + x + h + r
  {
    calc {
      d + h' + r';
      d + (h' + r');
      d + (h + r + x);
      d + x + h + r;
    }
  }

  /**
   * Draw phase: fill the hand to five, then the reserve to two, from the draw
   * pile; then move to the action phase.
   */
  function HandleDrawCard(s: State, ops: DeckOps): (r: State)
    requires Lawful(ops)
    ensures !(s.phase == Draw && !s.hasDrawn) ==> r == s
    ensures s.phase == Draw && !s.hasDrawn ==> r.phase == Action && r.hasDrawn
    ensures |s.currentPlayer.hand| <= MaxHand ==> |r.currentPlayer.hand| <= MaxHand
    ensures |s.currentPlayer.reserve| <= MaxReserve ==> |r.currentPlayer.reserve| <= MaxReserve
    ensures |r.currentPlayer.reserve| > |s.currentPlayer.reserve| ==> |r.currentPlayer.hand| >= MaxHand
    ensures |r.currentPlayer.hand| >= |s.currentPlayer.hand| && |r.currentPlayer.reserve| >= |s.currentPlayer.reserve|
    ensures r.currentPlayer.hand[..|s.currentPlayer.hand|] == s.currentPlayer.hand
    ensures r.currentPlayer.reserve[..|s.currentPlayer.reserve|] == s.currentPlayer.reserve
    ensures multiset(r.deck) + multiset(r.currentPlayer.hand) + multiset(r.currentPlayer.reserve)
         == multiset(s.deck) + multiset(s.currentPlayer.hand) + multiset(s.currentPlayer.reserve)
    ensures r.columns == s.columns
    ensures r.currentPlayer == s.currentPlayer.(hand := r.currentPlayer.hand, reserve := r.currentPlayer.reserve)
    ensures s.phase == Draw && !s.hasDrawn ==>
              r == s.(deck := r.deck, currentPlayer := r.currentPlayer, phase := Action, hasDrawn := true, message := r.message)
  {
    if s.phase != Draw || s.hasDrawn then s
    else
      var hand, reserve := s.currentPlayer.hand, s.currentPlayer.reserve;
      var needed := Space(|hand|, MaxHand) + Space(|reserve|, MaxReserve);
      if needed <= 0 then
        s.(phase := Action, hasDrawn := true, message := ActionPhase)
      else
        var out := ops.draw(s.deck, needed);
        assert IsDraw(s.deck, needed, out);
        DealConserves(s.deck, hand, reserve, out);
        DealAppends(hand, reserve, out.1);
        DistributeKeepsAll(hand, reserve, out.1);
        DistributeShape(hand, reserve, out.1);
        var dealt := Distribute(hand, reserve, out.1);
        s.(deck := out.0,
           currentPlayer := s.currentPlayer.(hand := dealt.0, reserve := dealt.1),
           phase := Action, hasDrawn := true, message := ActionPhase)
  }

  /** Drawing conserves every card of the game. */
  lemma DrawConserves(s: State, ops: DeckOps)
    requires Lawful(ops)
    ensures AllCards(HandleDrawCard(s, ops)) == AllCards(s)
  {
    var r := HandleDrawCard(s, ops);
    assert r.currentPlayer.discardPile == s.currentPlayer.discardPile;
  }

  // ---------------------------------------------------------------- discarding

  /**
   * Discard phase: the chosen card leaves hand and reserve and goes on top of
   * the discard pile; the turn moves on to drawing.
   */
  function HandleDiscard(s: State, card: Card): (r: State)
    ensures !(s.phase == Discard && !s.hasDiscarded) ==> r == s
    ensures s.phase == Discard && !s.hasDiscarded ==>
              && r.phase == Draw && r.hasDiscarded && r.selectedCards == []
              && r.currentPlayer.discardPile == s.currentPlayer.discardPile + [card]
              && (forall c :: c in r.currentPlayer.hand <==> c in s.currentPlayer.hand && c.id != card.id)
              && (forall c :: c in r.currentPlayer.reserve <==> c in s.currentPlayer.reserve && c.id != card.id)
              && r.deck == s.deck && r.columns == s.columns && r.turn == s.turn
              && r.hasDrawn == s.hasDrawn && r.hasPlayedAction == s.hasPlayedAction
  {
    if s.phase != Discard || s.hasDiscarded then s
    else
      var p := s.currentPlayer;
      assert !HasId(p.hand, card.id) ==> forall c :: c in p.hand ==> c.id != card.id;
      assert !HasId(p.reserve, card.id) ==> forall c :: c in p.reserve ==> c.id != card.id;
      s.(currentPlayer := DiscardFrom(p, card),
         hasDiscarded := true, selectedCards := [], phase := Draw, message := DrawPhase)
  }

  /** Discarding a held card moves exactly that card, and the held count drops by one. */
  lemma DiscardConserves(s: State, card: Card)
    requires s.phase == Discard && !s.hasDiscarded
    requires DistinctIds(Held(s)) && card in Held(s)
    ensures AllCards(HandleDiscard(s, card)) == AllCards(s)
    ensures HeldCount(HandleDiscard(s, card)) == HeldCount(s) - 1
  {
    var p := s.currentPlayer;
    var r := HandleDiscard(s, card);
    var q := r.currentPlayer;
    DiscardMovesOne(p, card);
    assert q == DiscardFrom(p, card);
    assert r == s.(currentPlayer := q, hasDiscarded := true, selectedCards := [], phase := Draw, message := DrawPhase);
    PlayerConserves(s, q);
  }

  /** The player record after discarding `card`. */
  function DiscardFrom(p: Player, card: Card): Player
  {
    var newHand := if HasId(p.hand, card.id) then WithoutIds(p.hand, {card.id}) else p.hand;
    var newReserve := if HasId(p.reserve, card.id) then WithoutIds(p.reserve, {card.id}) else p.reserve;
    p.(hand := newHand, reserve := newReserve, discardPile := p.discardPile + [card])
  }

  lemma DiscardMovesOne(p: Player, card: Card)
    requires DistinctIds(p.hand + p.reserve) && card in p.hand + p.reserve
    ensures var q := DiscardFrom(p, card);
            && multiset(q.hand) + multiset(q.reserve) + multiset(q.discardPile)
               == multiset(p.hand) + multiset(p.reserve) + multiset(p.discardPile)
            && |q.hand| + |q.reserve| == |p.hand| + |p.reserve| - 1
  {
    var q := DiscardFrom(p, card);
    var H, R, P, C := multiset(p.hand), multiset(p.reserve), multiset(p.discardPile), multiset{card};
    assert multiset(q.discardPile) == P + C;
    HeldOnce(p.hand, p.reserve, card);
    HasIdIsIdsOf(p.hand, card.id);
    HasIdIsIdsOf(p.reserve, card.id);
    if card in p.hand {
      RemoveOne(p.hand, card);
      assert q.hand == WithoutIds(p.hand, {card.id}) && q.reserve == p.reserve;
      SumAddBack(multiset(q.hand), R, P, C, H);
    } else {
      RemoveOne(p.reserve, card);
      assert q.hand == p.hand && q.reserve == WithoutIds(p.reserve, {card.id});
      SumAddBackSecond(H, multiset(q.reserve), P, C, R);
    }
  }

  lemma SumAddBack(x: multiset<Card>, y: multiset<Card>, z: multiset<Card>, c: multiset<Card>, x0: multiset<Card>)
    requires x + c == x0
    ensures x + y + (z + c) == x0 + y + z
  {
  }

  lemma SumAddBackSecond(x: multiset<Card>, y: multiset<Card>, z: multiset<Card>, c: multiset<Card>, y0: multiset<Card>)
    requires y + c == y0
    ensures x + y + (z + c) == x + y0 + z
  {
  }

  // ---------------------------------------------------------------- end of turn

  /**
   * Pass the turn after the action: flags, selection and the strategic-shuffle
   * mark are reset, the turn counter advances, and the next phase is the
   * discard phase exactly when seven cards are held.
   */
  function HandlePassTurn(s: State): (r: State)
    ensures !(s.phase == Action && s.hasPlayedAction) ==> r == s
    ensures s.phase == Action && s.hasPlayedAction ==>
              && (r.phase == Discard <==> HeldCount(s) == 7)
              && (r.phase == Draw <==> HeldCount(s) != 7)
              && r.turn == s.turn + 1
              && !r.hasDiscarded && !r.hasDrawn && !r.hasPlayedAction
              && r.selectedCards == []
              && r.currentPlayer == s.currentPlayer.(hasUsedStrategicShuffle := false)
              && r.deck == s.deck && r.columns == s.columns && r.nextPhase == s.nextPhase
  {
    if s.phase != Action || !s.hasPlayedAction then s
    else
      var next := PhaseForCount(HeldCount(s));
      s.(phase := next, hasDiscarded := false, hasDrawn := false, hasPlayedAction := false,
         currentPlayer := s.currentPlayer.(hasUsedStrategicShuffle := false),
         selectedCards := [], turn := s.turn + 1,
         message := if next == Discard then DiscardPhase else DrawPhase)
  }

  /**
   * End the turn (no guard): a staged next phase wins, otherwise the discard
   * phase exactly when seven cards are held. The staged phase is consumed, the
   * turn counter is left alone, and the number of selected cards is recorded.
   */
  function EndTurn(s: State): (r: State)
    ensures s.nextPhase.Some? ==> r.phase == s.nextPhase.value
    ensures s.nextPhase.None? ==> (r.phase == Discard <==> HeldCount(s) == 7) && (r.phase == Draw <==> HeldCount(s) != 7)
    ensures r.nextPhase.None? && r.turn == s.turn
    ensures !r.hasDiscarded && !r.hasDrawn && !r.hasPlayedAction && r.selectedCards == []
    ensures r.playedCardsLastTurn == |s.selectedCards|
    ensures r.currentPlayer == s.currentPlayer && r.deck == s.deck && r.columns == s.columns
  {
    var next := if s.nextPhase.Some? then s.nextPhase.value else PhaseForCount(HeldCount(s));
    s.(phase := next, hasDiscarded := false, hasDrawn := false, hasPlayedAction := false,
       selectedCards := [], nextPhase := None,
       message := if next == Discard then DiscardPhase else DrawPhase,
       playedCardsLastTurn := |s.selectedCards|)
  }

  /**
   * With nothing staged, ending and passing the turn agree on the next phase;
   * only passing advances the counter and clears the strategic-shuffle mark.
   */
  lemma EndTurnAgreesWithPassTurn(s: State)
    requires s.phase == Action && s.hasPlayedAction && s.nextPhase.None?
    ensures EndTurn(s).phase == HandlePassTurn(s).phase
    ensures HandlePassTurn(s).turn == EndTurn(s).turn + 1
  {
  }

  /** Leave the setup phase once exactly two cards are in reserve. */
  function StartGame(s: State): (r: State)
    ensures |s.currentPlayer.reserve| != 2 ==> r == s
    ensures |s.currentPlayer.reserve| == 2 ==>
              && r.phase == Discard && !r.hasDiscarded && !r.hasDrawn && !r.hasPlayedAction
              && !r.hasUsedFirstStrategicShuffle
              && r.currentPlayer == s.currentPlayer && r.deck == s.deck && r.columns == s.columns
  {
    if |s.currentPlayer.reserve| != 2 then s
    else
      s.(phase := Discard, hasDiscarded := false, hasDrawn := false, hasPlayedAction := false,
         hasUsedFirstStrategicShuffle := false, message := ShuffleFirst)
  }

  /** Give up the action of this turn without playing a card. */
  function HandleSkipAction(s: State): (r: State)
    ensures !(s.phase == Action && !s.hasPlayedAction) ==> r == s
    ensures s.phase == Action && !s.hasPlayedAction ==>
              && r.hasPlayedAction && r.hasDiscarded && r.hasDrawn && r.playedCardsLastTurn == 0
              && r.phase == Action && r.currentPlayer == s.currentPlayer && r.columns == s.columns
              && r.selectedCards == s.selectedCards
  {
    if s.phase != Action || s.hasPlayedAction then s
    else
      s.(hasPlayedAction := true, hasDiscarded := true, hasDrawn := true,
         playedCardsLastTurn := 0, message := ActionSkipped)
  }

  /** Surrender ends the game in the opponent's favour and touches nothing else. */
  function HandleSurrender(s: State): (r: State)
    ensures r.isGameOver && r.winner == Some("opponent")
    ensures r.(isGameOver := s.isGameOver, winner := s.winner, message := s.message) == s
  {
    s.(isGameOver := true, winner := Some("opponent"), message := Surrendered)
  }

  // ---------------------------------------------------------------- hand and reserve

  /**
   * Swap a hand card (found by `card1`'s id) with a reserve card (found by
   * `card2`'s id); nothing happens unless both are found.
   */
  function ExchangeCards(s: State, card1: Card, card2: Card): (r: State)
    ensures !HasId(s.currentPlayer.hand, card1.id) || !HasId(s.currentPlayer.reserve, card2.id) ==> r == s
    ensures |r.currentPlayer.hand| == |s.currentPlayer.hand|
    ensures |r.currentPlayer.reserve| == |s.currentPlayer.reserve|
    ensures multiset(r.currentPlayer.hand) + multiset(r.currentPlayer.reserve)
         == multiset(s.currentPlayer.hand) + multiset(s.currentPlayer.reserve)
    ensures HasId(s.currentPlayer.hand, card1.id) && HasId(s.currentPlayer.reserve, card2.id) ==>
              HasId(r.currentPlayer.hand, card2.id) && HasId(r.currentPlayer.reserve, card1.id)
    ensures r.currentPlayer.discardPile == s.currentPlayer.discardPile && r.deck == s.deck && r.columns == s.columns
  {
    var p := s.currentPlayer;
    var i := IndexOfId(p.hand, card1.id);
    var j := IndexOfId(p.reserve, card2.id);
    if i == -1 || j == -1 then s
    else
      var h := p.hand[i := p.reserve[j]];
      var v := p.reserve[j := p.hand[i]];
      CrossSwapMs(p.hand, p.reserve, i, j);
      assert h[i].id == card2.id && v[j].id == card1.id;
      s.(currentPlayer := p.(hand := h, reserve := v), message := ExchangeComplete)
  }

  /** Trading a position of one list for a position of another keeps the two lists' cards together. */
  lemma CrossSwapMs(h: seq<Card>, v: seq<Card>, i: nat, j: nat)
    requires i < |h| && j < |v|
    ensures multiset(h[i := v[j]]) + multiset(v[j := h[i]]) == multiset(h) + multiset(v)
  {
    var H, V := multiset(h[i := v[j]]), multiset(v[j := h[i]]);
    assert H == multiset(h) - multiset{h[i]} + multiset{v[j]};
    assert V == multiset(v) - multiset{v[j]} + multiset{h[i]};
    assert h[i] in multiset(h) && v[j] in multiset(v);
    forall x ensures (H + V)[x] == (multiset(h) + multiset(v))[x] {
    }
  }

  /**
   * After trading the first holders of two identifiers, the searches find
   * the traded cards at the same positions, and trading again restores both lists.
   */
  lemma SwapKeepsPositions(h: seq<Card>, v: seq<Card>, i: int, j: int, id1: CardId, id2: CardId)
    requires DistinctIds(h + v)
    requires 0 <= i && i == IndexOfId(h, id1) && 0 <= j && j == IndexOfId(v, id2)
    ensures var h', v' := h[i := v[j]], v[j := h[i]];
            && IndexOfId(h', id2) == i && IndexOfId(v', id1) == j
            && h'[i := v'[j]] == h && v'[j := h'[i]] == v
  {
    var h', v' := h[i := v[j]], v[j := h[i]];
    forall k | 0 <= k < i ensures h'[k].id != id2 {
      assert (h + v)[k] == h[k] && (h + v)[|h| + j] == v[j];
    }
    forall k | 0 <= k < j ensures v'[k].id != id1 {
      assert (h + v)[i] == h[i] && (h + v)[|h| + k] == v[k];
    }
    FirstIdAt(h', id2, i);
    FirstIdAt(v', id1, j);
  }

  /** Exchanging back with the roles of the two cards reversed restores hand and reserve. */
  lemma ExchangeCardsInverse(s: State, card1: Card, card2: Card)
    requires HasId(s.currentPlayer.hand, card1.id) && HasId(s.currentPlayer.reserve, card2.id)
    requires DistinctIds(Held(s))
    ensures ExchangeCards(ExchangeCards(s, card1, card2), card2, card1).currentPlayer == s.currentPlayer
  {
    var p := s.currentPlayer;
    var i := IndexOfId(p.hand, card1.id);
    var j := IndexOfId(p.reserve, card2.id);
    SwapKeepsPositions(p.hand, p.reserve, i, j, card1.id, card2.id);
    var q := ExchangeCards(s, card1, card2).currentPlayer;
    assert q.hand == p.hand[i := p.reserve[j]] && q.reserve == p.reserve[j := p.hand[i]];
  }

  /** Move a card from the hand to the end of the reserve (no capacity check). */
  function MoveToReserve(s: State, card: Card): (r: State)
    ensures r.currentPlayer.reserve == s.currentPlayer.reserve + [card]
    ensures forall c :: c in r.currentPlayer.hand <==> c in s.currentPlayer.hand && c.id != card.id
    ensures r == s.(currentPlayer := r.currentPlayer)
    ensures r.currentPlayer == s.currentPlayer.(hand := r.currentPlayer.hand, reserve := r.currentPlayer.reserve)
  {
    var p := s.currentPlayer;
    s.(currentPlayer := p.(reserve := p.reserve + [card], hand := WithoutIds(p.hand, {card.id})))
  }

  /** Move a card from the reserve to the end of the hand, unless the hand already holds five. */
  function MoveToHand(s: State, card: Card): (r: State)
    ensures |s.currentPlayer.hand| >= MaxHand ==> r == s
    ensures |s.currentPlayer.hand| < MaxHand ==>
              && r.currentPlayer.hand == s.currentPlayer.hand + [card]
              && (forall c :: c in r.currentPlayer.reserve <==> c in s.currentPlayer.reserve && c.id != card.id)
    ensures |s.currentPlayer.hand| <= MaxHand ==> |r.currentPlayer.hand| <= MaxHand
    ensures r == s.(currentPlayer := r.currentPlayer)
    ensures r.currentPlayer == s.currentPlayer.(hand := r.currentPlayer.hand, reserve := r.currentPlayer.reserve)
  {
    var p := s.currentPlayer;
    if |p.hand| >= MaxHand then s
    else s.(currentPlayer := p.(reserve := WithoutIds(p.reserve, {card.id}), hand := p.hand + [card]))
  }

  /** Moving a held card between hand and reserve conserves every card. */
  lemma MoveToReserveConserves(s: State, card: Card)
    requires DistinctIds(s.currentPlayer.hand) && card in s.currentPlayer.hand
    ensures AllCards(MoveToReserve(s, card)) == AllCards(s)
  {
    RemoveOne(s.currentPlayer.hand, card);
  }

  lemma MoveToHandConserves(s: State, card: Card)
    requires DistinctIds(s.currentPlayer.reserve) && card in s.currentPlayer.reserve
    ensures AllCards(MoveToHand(s, card)) == AllCards(s)
  {
    RemoveOne(s.currentPlayer.reserve, card);
  }

  /**
   * Moving a hand card to the reserve and back restores both zones as
   * multisets, provided the hand has room again afterwards.
   */
  lemma MoveToReserveThenHand(s: State, card: Card)
    requires DistinctIds(Held(s)) && card in s.currentPlayer.hand && |s.currentPlayer.hand| <= MaxHand
    ensures var r := MoveToHand(MoveToReserve(s, card), card);
            multiset(r.currentPlayer.hand) == multiset(s.currentPlayer.hand)
            && multiset(r.currentPlayer.reserve) == multiset(s.currentPlayer.reserve)
  {
    var p := s.currentPlayer;
    HeldOnce(p.hand, p.reserve, card);
    RemoveOne(p.hand, card);
    AppendThenRemove(p.reserve, card);
    var m := MoveToReserve(s, card).currentPlayer;
    assert m.hand == WithoutIds(p.hand, {card.id}) && m.reserve == p.reserve + [card];
    var q := MoveToHand(MoveToReserve(s, card), card).currentPlayer;
    assert q.hand == WithoutIds(p.hand, {card.id}) + [card];
    assert q.reserve == p.reserve;
  }

  // ---------------------------------------------------------------- new game

  /**
   * Start a new game from the full deck `fullDeck` (built by the deck module):
   * shuffle it, deal seven cards to the hand and reset the board. Fields the
   * reset does not mention keep their previous values.
   */
  function InitializeGame(s: State, ops: DeckOps, fullDeck: seq<Card>): (r: State)
    requires Lawful(ops)
    ensures AllCards(r) == multiset(fullDeck)
    ensures |r.currentPlayer.hand| <= 7 && r.currentPlayer.reserve == [] && r.currentPlayer.discardPile == []
    ensures r.phase == Setup && r.turn == 1 && r.selectedCards == [] && r.columns == InitialColumns
    ensures r.currentPlayer.health == 10 && r.currentPlayer.maxHealth == 10
    ensures !r.hasDiscarded && !r.hasDrawn && !r.hasPlayedAction && !r.isGameOver && r.winner.None?
    ensures r.playedCardsLastTurn == s.playedCardsLastTurn && r.nextPhase == s.nextPhase
    ensures r.queenChallenge == s.queenChallenge
  {
    var out := ops.draw(ops.shuffle(fullDeck), 7);
    ShuffleThenDraw(ops, fullDeck, 7);
    var r := s.(currentPlayer := Player(10, 10, out.1, [], [], false),
                deck := out.0, phase := Setup, turn := 1, selectedCards := [],
                columns := InitialColumns,
                hasDiscarded := false, hasDrawn := false, hasPlayedAction := false,
                hasUsedFirstStrategicShuffle := false, awaitingStrategicShuffleConfirmation := false,
                isGameOver := false, winner := None, message := StartMessage);
    FreshDealCards(r);
    r
  }

  /** With an empty board, reserve and discard pile, the game's cards are the draw pile and the hand. */
  lemma FreshDealCards(r: State)
    requires r.columns == InitialColumns && r.currentPlayer.reserve == [] && r.currentPlayer.discardPile == []
    ensures AllCards(r) == multiset(r.deck) + multiset(r.currentPlayer.hand)
  {
    EmptyBoard();
    var D, H := multiset(r.deck), multiset(r.currentPlayer.hand);
    assert multiset(r.currentPlayer.reserve) == multiset{} && multiset(r.currentPlayer.discardPile) == multiset{};
    assert LooseMs(r) == D + H;
  }

  /** The initial board holds no card. */
  lemma EmptyBoard()
    ensures BoardMs(InitialColumns) == multiset{}
  {
    var m := InitialColumns;
    EmptyPart(m, Hearts);
    EmptyPart(m, Diamonds);
    EmptyPart(m, Clubs);
    EmptyPart(m, Spades);
    EmptyPart(m, Special);
  }

  /** A key that is absent or holds an empty column adds no card to the board. */
  lemma EmptyPart(cols: map<Suit, Column>, t: Suit)
    requires t in cols ==> cols[t] == EmptyColumn
    ensures PartMs(cols, t) == multiset{}
  {
    assert ColumnMs(EmptyColumn) == multiset{};
  }
}
