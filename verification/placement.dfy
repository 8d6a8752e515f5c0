/**
 * Placing selected cards on the board: opening a column with an Ace and an
 * activator, attaching a face card, setting a 7 at position 7 of its own
 * column, and the Queen-and-activator combination.
 */
module Placement {

  import opened Wrappers
  import opened Cards
  import opened Zones
  import opened Game

  /** The player without the selected cards, matched by identifier, in hand and reserve. */
  function WithoutSelected(p: Player, sel: seq<Card>): Player
  {
    p.(hand := WithoutIds(p.hand, IdsOf(sel)), reserve := WithoutIds(p.reserve, IdsOf(sel)))
  }

  /** The `activatorType` recorded for an activator. */
  function KindOf(act: Card): ActivatorKind
  {
    if IsJoker(act) then JokerActivator else SevenActivator
  }

  /** `[...z.slice(0, pos), c, ...z.slice(pos + 1)]`: `c` replaces position `pos`, or is appended when `z` is shorter. */
  function Splice(z: seq<Card>, pos: nat, c: Card): (r: seq<Card>)
    ensures pos < |z| ==> |r| == |z| && r[pos] == c && forall k :: 0 <= k < |z| && k != pos ==> r[k] == z[k]
    ensures pos >= |z| ==> r == z + [c]
  {
    if pos < |z| then z[..pos] + [c] + z[pos + 1..] else z + [c]
  }

  /**
   * What every placement keeps: the draw pile, the turn, the health, and a
   * discard pile that only grows, by at most two cards.
   */
  predicate PlacementFrame(s: State, r: State)
  {
    && r.deck == s.deck && r.turn == s.turn && r.isGameOver == s.isGameOver
    && r.currentPlayer.health == s.currentPlayer.health
    && r.currentPlayer.maxHealth == s.currentPlayer.maxHealth
    && s.currentPlayer.discardPile <= r.currentPlayer.discardPile
    && |r.currentPlayer.discardPile| <= |s.currentPlayer.discardPile| + 2
  }

  /** The action is consumed by playing `n` cards and the selection is cleared. */
  predicate Consumed(r: State, n: int)
  {
    r.hasPlayedAction && r.selectedCards == [] && r.playedCardsLastTurn == n
  }

  /** Open the column at `suit`: the Ace becomes its only card and the activator guards its slot. */
  function PlaceAce(s: State, suit: Suit, ace: Card, act: Card): (r: State)
    requires suit in s.columns
    ensures PlacementFrame(s, r) && Consumed(r, 2) && r.columns.Keys == s.columns.Keys
  {
    var col := s.columns[suit];
    s.(columns := s.columns[suit := col.(hasLuckyCard := true, cards := [ace],
                                         reserveSuit := Some(act), activatorType := Some(KindOf(act)))],
       currentPlayer := WithoutSelected(s.currentPlayer, s.selectedCards),
       selectedCards := [], hasPlayedAction := true, playedCardsLastTurn := 2, message := ColumnActivated)
  }

  /** Attach a Jack or King to the column at `suit`; the activator goes to the discard pile. */
  function PlaceFace(s: State, suit: Suit, face: Card, act: Card): (r: State)
    requires suit in s.columns
    ensures PlacementFrame(s, r) && Consumed(r, 2) && r.columns.Keys == s.columns.Keys
  {
    var col := s.columns[suit];
    var col' := if face.value == Jack then col.(faceJack := Some(face)) else col.(faceKing := Some(face));
    var p := WithoutSelected(s.currentPlayer, s.selectedCards);
    s.(columns := s.columns[suit := col'],
       currentPlayer := p.(discardPile := p.discardPile + [act]),
       selectedCards := [], hasPlayedAction := true, playedCardsLastTurn := 2, message := FaceCardPlaced)
  }

  /** The guarded slot's card, as a list of zero or one cards. */
  function SlotCards(col: Column): (r: seq<Card>)
    ensures multiset(r) == OptMs(col.reserveSuit)
  {
    if col.reserveSuit.Some? then [col.reserveSuit.value] else []
  }

  /**
   * Take `out` from the zone that holds it (the hand when the hand holds its
   * identifier, the reserve otherwise) and append `back` to that same zone.
   */
  function SwapIntoOrigin(p: Player, out: Card, back: seq<Card>): (q: Player)
    ensures q == p.(hand := q.hand, reserve := q.reserve)
  {
    if HasId(p.hand, out.id) then p.(hand := WithoutIds(p.hand, {out.id}) + back)
    else p.(reserve := WithoutIds(p.reserve, {out.id}) + back)
  }

  /** Swapping a card of a zone with distinct identifiers for `back` trades exactly that card for `back`. */
  lemma SwapZoneMs(z: seq<Card>, out: Card, back: seq<Card>)
    requires DistinctIds(z) && out in z
    ensures multiset(WithoutIds(z, {out.id}) + back) + multiset{out} == multiset(z) + multiset(back)
  {
    RemoveOne(z, out);
    var W, B, S := multiset(WithoutIds(z, {out.id})), multiset(back), multiset{out};
    assert multiset(WithoutIds(z, {out.id}) + back) == W + B;
    forall x ensures (W + B + S)[x] == (multiset(z) + B)[x] {
      assert (W + S)[x] == multiset(z)[x];
    }
  }

  /** Swapping a hand card for `back` in the hand trades exactly that card for `back`. */
  lemma SwapHandMs(p: Player, out: Card, back: seq<Card>)
    requires DistinctIds(p.hand) && out in p.hand
    ensures ZonesMs(p.(hand := WithoutIds(p.hand, {out.id}) + back)) + multiset{out} == ZonesMs(p) + multiset(back)
  {
    SwapZoneMs(p.hand, out, back);
    var N, H, R, P := multiset(WithoutIds(p.hand, {out.id}) + back), multiset(p.hand), multiset(p.reserve), multiset(p.discardPile);
    forall x ensures (N + R + P + multiset{out})[x] == (H + R + P + multiset(back))[x] {
      assert (N + multiset{out})[x] == (H + multiset(back))[x];
    }
  }

  /** Swapping a reserve card for `back` in the reserve trades exactly that card for `back`. */
  lemma SwapReserveMs(p: Player, out: Card, back: seq<Card>)
    requires DistinctIds(p.reserve) && out in p.reserve
    ensures ZonesMs(p.(reserve := WithoutIds(p.reserve, {out.id}) + back)) + multiset{out} == ZonesMs(p) + multiset(back)
  {
    SwapZoneMs(p.reserve, out, back);
    var N, H, R, P := multiset(WithoutIds(p.reserve, {out.id}) + back), multiset(p.hand), multiset(p.reserve), multiset(p.discardPile);
    forall x ensures (H + N + P + multiset{out})[x] == (H + R + P + multiset(back))[x] {
      assert (N + multiset{out})[x] == (R + multiset(back))[x];
    }
  }

  /** A held card swapped for `back` leaves the player's cards changed by exactly that exchange. */
  lemma SwapIntoOriginMs(p: Player, out: Card, back: seq<Card>)
    requires out in p.hand + p.reserve && DistinctIds(p.hand + p.reserve)
    ensures ZonesMs(SwapIntoOrigin(p, out, back)) + multiset{out} == ZonesMs(p) + multiset(back)
  {
    HeldOnce(p.hand, p.reserve, out);
    HasIdIsIdsOf(p.hand, out.id);
    if out in p.hand {
      SwapHandMs(p, out, back);
    } else {
      SwapReserveMs(p, out, back);
    }
  }

  /**
   * Set a lone 7 at position 7 of its own column. It leaves the zone it came
   * from (the hand if it is there, otherwise the reserve); the card the slot
   * guarded, if any, goes to that same zone, and the slot is emptied.
   */
  function PlaceSevenAt(s: State, suit: Suit, seven: Card, position: nat): (r: State)
    requires suit in s.columns
    ensures PlacementFrame(s, r) && Consumed(r, 1)
  {
    var col := s.columns[suit];
    var col' := col.(cards := Splice(col.cards, position, seven), reserveSuit := None, activatorType := None);
    s.(columns := s.columns[suit := col'],
       currentPlayer := SwapIntoOrigin(s.currentPlayer, seven, SlotCards(col)),
       selectedCards := [], hasPlayedAction := true, playedCardsLastTurn := 1,
       message := if col.reserveSuit.Some? then SevenSwapped else SevenPlaced, phase := Action)
  }

  /** Setting a 7 keeps the board's set of columns. */
  lemma PlaceSevenAtKeys(s: State, suit: Suit, seven: Card, position: nat)
    requires suit in s.columns
    ensures PlaceSevenAt(s, suit, seven, position).columns.Keys == s.columns.Keys
  {
  }

  /**
   * Play a Queen with an activator: both go to the discard pile, the first
   * column whose slot holds the activator's identifier loses it, and the
   * phase after the turn is staged from the cards left. Health is not changed.
   */
  function QueenCombo(s: State, queen: Card, act: Card): (r: State)
    ensures PlacementFrame(s, r) && Consumed(r, 2) && r.columns.Keys == s.columns.Keys
  {
    var p := WithoutSelected(s.currentPlayer, s.selectedCards);
    var holder := SlotHolder(s.columns, act.id);
    var cols := if holder.Some? then s.columns[holder.value := s.columns[holder.value].(reserveSuit := None)]
                else s.columns;
    s.(currentPlayer := p.(discardPile := p.discardPile + [queen, act]),
       columns := cols, selectedCards := [], hasPlayedAction := true, playedCardsLastTurn := 2,
       message := QueenHealing, phase := Action,
       nextPhase := Some(PhaseForCount(|p.hand| + |p.reserve|)))
  }

  /** The Ace-and-activator opening applies: the test the source makes before touching the column. */
  predicate AceCase(s: State, suit: Suit, position: int)
  {
    var sel := s.selectedCards;
    var ace, act := Find(sel, IsAce), Find(sel, IsActivator);
    |sel| == 2 && ace.Some? && act.Some? && position == 0 && ace.value.suit == suit
  }

  predicate FaceCase(s: State, suit: Suit, position: int)
  {
    var sel := s.selectedCards;
    var face, act := Find(sel, IsJackOrKing), Find(sel, IsActivator);
    |sel| == 2 && face.Some? && act.Some? && position == 0 && face.value.suit == suit
  }

  predicate SevenCase(s: State, suit: Suit, position: int)
  {
    |s.selectedCards| == 1 && IsSeven(s.selectedCards[0]) && s.selectedCards[0].suit == suit && position == 7
  }

  predicate QueenCase(s: State)
  {
    |s.selectedCards| == 2 && Find(s.selectedCards, IsQueen).Some? && Find(s.selectedCards, IsActivator).Some?
  }

  /**
   * Tap a column with the current selection. The branches are tried in the
   * source's order; reading a column the board does not have aborts the
   * update, and so does the lone-card placement other than a 7 at position 7,
   * whose code refers to names that are not in scope.
   */
  function HandleCardPlace(s: State, suit: Suit, position: int): (r: State)
    ensures PlacementFrame(s, r) && r.columns.Keys == s.columns.Keys
    ensures |s.selectedCards| != 1 && |s.selectedCards| != 2 ==> r == s
    ensures r != s ==> Consumed(r, |s.selectedCards|)
    ensures |s.selectedCards| == 1 && !(SevenCase(s, suit, position) && suit in s.columns) ==> r == s
  {
    var sel := s.selectedCards;
    if AceCase(s, suit, position)
       && (suit !in s.columns || |s.columns[suit].cards| == 0 || !s.columns[suit].hasLuckyCard) then
      if suit !in s.columns then s
      else PlaceAce(s, suit, Find(sel, IsAce).value, Find(sel, IsActivator).value)
    else if FaceCase(s, suit, position) then
      if suit !in s.columns then s
      else PlaceFace(s, suit, Find(sel, IsJackOrKing).value, Find(sel, IsActivator).value)
    else if |sel| == 1 then
      if SevenCase(s, suit, position) && suit in s.columns then
        PlaceSevenAtKeys(s, suit, sel[0], 7);
        PlaceSevenAt(s, suit, sel[0], 7)
      else s
    else if QueenCase(s) then
      QueenCombo(s, Find(sel, IsQueen).value, Find(sel, IsActivator).value)
    else s
  }

  // ---------------------------------------------------------------- the branches, from the selection

  /** The two selected cards, in either order. */
  predicate SelectedPair(s: State, a: Card, b: Card)
  {
    s.selectedCards == [a, b] || s.selectedCards == [b, a]
  }

  /** A search over a selected pair in which at most one of the two matches finds that one. */
  lemma FindSelected(s: State, a: Card, b: Card, p: Card -> bool)
    requires SelectedPair(s, a, b) && !(p(a) && p(b))
    ensures Find(s.selectedCards, p) == (if p(a) then Some(a) else if p(b) then Some(b) else None)
  {
    FindPair(a, b, p);
    FindPair(b, a, p);
  }

  /** The identifiers of a selected pair. */
  lemma PairIds(s: State, a: Card, b: Card)
    requires SelectedPair(s, a, b)
    ensures IdsOf(s.selectedCards) == {a.id, b.id}
  {
    assert forall c :: c in s.selectedCards <==> c == a || c == b;
  }

  /** Removing a selected pair of held cards takes exactly those two out of hand and reserve. */
  lemma PairLeavesZones(s: State, a: Card, b: Card)
    requires SelectedPair(s, a, b) && a.id != b.id
    requires a in Held(s) && b in Held(s) && DistinctIds(Held(s))
    ensures var q := WithoutSelected(s.currentPlayer, s.selectedCards);
            multiset(q.hand) + multiset(q.reserve) + multiset{a, b}
            == multiset(s.currentPlayer.hand) + multiset(s.currentPlayer.reserve)
  {
    PairIds(s, a, b);
    RemovePairFromZones(s.currentPlayer.hand, s.currentPlayer.reserve, a, b);
  }

  /** Which branch the dispatcher takes for an Ace-and-activator selection. */
  lemma AceDispatch(s: State, suit: Suit, ace: Card, act: Card)
    requires SelectedPair(s, ace, act) && IsAce(ace) && IsActivator(act) && Regular(ace) && Regular(act)
    requires ace.suit == suit && suit in s.columns
    requires |s.columns[suit].cards| == 0 || !s.columns[suit].hasLuckyCard
    ensures HandleCardPlace(s, suit, 0) == PlaceAce(s, suit, ace, act)
  {
    FindSelected(s, ace, act, IsAce);
    FindSelected(s, ace, act, IsActivator);
    assert AceCase(s, suit, 0);
  }

  /** Discarding a selected pair of held cards keeps the player's cards, as a multiset. */
  lemma PairDiscarded(s: State, a: Card, b: Card)
    requires SelectedPair(s, a, b) && a != b
    requires a in Held(s) && b in Held(s) && DistinctIds(Held(s))
    ensures var w := WithoutSelected(s.currentPlayer, s.selectedCards);
            ZonesMs(w.(discardPile := w.discardPile + [a, b])) == ZonesMs(s.currentPlayer)
  {
    var p := s.currentPlayer;
    var w := WithoutSelected(p, s.selectedCards);
    var q := w.(discardPile := w.discardPile + [a, b]);
    assert ZonesMs(w) + multiset{a, b} == ZonesMs(p) by {
      HeldPairDistinct(s, a, b);
      PairLeavesPlayer(s, a, b);
    }
    assert ZonesMs(q) == ZonesMs(w) + multiset{a, b} by {
      DiscardAppendMs(w, [a, b]);
      assert multiset([a, b]) == multiset{a, b};
    }
  }

  /** Appending to the discard pile adds exactly the appended cards to the player's cards. */
  lemma DiscardAppendMs(w: Player, d: seq<Card>)
    ensures ZonesMs(w.(discardPile := w.discardPile + d)) == ZonesMs(w) + multiset(d)
  {
    var H, R, P, D := multiset(w.hand), multiset(w.reserve), multiset(w.discardPile), multiset(d);
    assert multiset(w.discardPile + d) == P + D;
    forall x ensures (H + R + (P + D))[x] == (H + R + P + D)[x] {
    }
  }

  /**
   * An Ace of the tapped suit with an activator, at position 0, on a column
   * that is empty or not yet lucky: the column's cards become the Ace alone,
   * it turns lucky, the activator guards its slot with its kind recorded, both
   * cards leave hand and reserve, and no other column changes.
   */
  lemma AcePlacement(s: State, suit: Suit, ace: Card, act: Card)
    requires SelectedPair(s, ace, act) && IsAce(ace) && IsActivator(act) && Regular(ace) && Regular(act)
    requires ace.suit == suit && suit in s.columns
    requires |s.columns[suit].cards| == 0 || !s.columns[suit].hasLuckyCard
    ensures var r := HandleCardPlace(s, suit, 0);
            var col, col' := s.columns[suit], r.columns[suit];
            && col'.cards == [ace] && col'.hasLuckyCard
            && col'.reserveSuit == Some(act)
            && col'.activatorType == Some(if IsJoker(act) then JokerActivator else SevenActivator)
            && col'.faceJack == col.faceJack && col'.faceKing == col.faceKing && col'.isLocked == col.isLocked
    ensures var r := HandleCardPlace(s, suit, 0);
            forall t :: t != suit ==> SameColumn(s.columns, r.columns, t)
    ensures var r := HandleCardPlace(s, suit, 0);
            r.currentPlayer.discardPile == s.currentPlayer.discardPile && Consumed(r, 2)
  {
    AceDispatch(s, suit, ace, act);
  }

  /** Under the same conditions, the Ace and the activator leave hand and reserve, and nothing else does. */
  lemma AceLeavesZones(s: State, suit: Suit, ace: Card, act: Card)
    requires SelectedPair(s, ace, act) && IsAce(ace) && IsActivator(act) && Regular(ace) && Regular(act)
    requires ace.suit == suit && suit in s.columns
    requires |s.columns[suit].cards| == 0 || !s.columns[suit].hasLuckyCard
    ensures var r := HandleCardPlace(s, suit, 0);
            && (forall c :: c in r.currentPlayer.hand <==> c in s.currentPlayer.hand && c.id != ace.id && c.id != act.id)
            && (forall c :: c in r.currentPlayer.reserve <==> c in s.currentPlayer.reserve && c.id != ace.id && c.id != act.id)
  {
    AceDispatch(s, suit, ace, act);
    PlaceAceLeaves(s, suit, ace, act);
  }

  /** Opening a column filters the Ace's and the activator's identifiers out of hand and reserve. */
  lemma PlaceAceLeaves(s: State, suit: Suit, ace: Card, act: Card)
    requires SelectedPair(s, ace, act) && suit in s.columns
    ensures var r := PlaceAce(s, suit, ace, act);
            && (forall c :: c in r.currentPlayer.hand <==> c in s.currentPlayer.hand && c.id != ace.id && c.id != act.id)
            && (forall c :: c in r.currentPlayer.reserve <==> c in s.currentPlayer.reserve && c.id != ace.id && c.id != act.id)
  {
    PairIds(s, ace, act);
    var r := PlaceAce(s, suit, ace, act);
    assert r.currentPlayer.hand == WithoutIds(s.currentPlayer.hand, {ace.id, act.id});
    assert r.currentPlayer.reserve == WithoutIds(s.currentPlayer.reserve, {ace.id, act.id});
  }

  /** Two held cards with distinct identifiers in hand and reserve are different cards with different identifiers. */
  lemma HeldPairDistinct(s: State, a: Card, b: Card)
    requires SelectedPair(s, a, b) && a != b && a in Held(s) && b in Held(s) && DistinctIds(Held(s))
    ensures a.id != b.id
  {
  }

  /** Removing a selected pair of held cards takes exactly those two out of the player's cards. */
  lemma PairLeavesPlayer(s: State, a: Card, b: Card)
    requires SelectedPair(s, a, b) && a.id != b.id
    requires a in Held(s) && b in Held(s) && DistinctIds(Held(s))
    ensures ZonesMs(WithoutSelected(s.currentPlayer, s.selectedCards)) + multiset{a, b} == ZonesMs(s.currentPlayer)
  {
    PairLeavesZones(s, a, b);
    var p := s.currentPlayer;
    var q := WithoutSelected(p, s.selectedCards);
    var H', R', H, R, P := multiset(q.hand), multiset(q.reserve), multiset(p.hand), multiset(p.reserve), multiset(p.discardPile);
    assert H' + R' + multiset{a, b} == H + R;
    forall x ensures (ZonesMs(q) + multiset{a, b})[x] == ZonesMs(p)[x] {
      assert (H' + R' + multiset{a, b})[x] == (H + R)[x];
    }
  }

  /**
   * Opening a column moves the Ace and the activator from hand or reserve to
   * the board. The column's old cards and its old slot card are overwritten,
   * so they leave play: the cards in play shrink by exactly those, and by
   * nothing when the column was empty.
   */
  lemma AceConserves(s: State, suit: Suit, ace: Card, act: Card)
    requires SelectedPair(s, ace, act) && IsAce(ace) && IsActivator(act) && Regular(ace) && Regular(act)
    requires ace in Held(s) && act in Held(s) && DistinctIds(Held(s))
    requires ace.suit == suit && suit in s.columns
    requires |s.columns[suit].cards| == 0 || !s.columns[suit].hasLuckyCard
    ensures AllCards(HandleCardPlace(s, suit, 0)) + multiset(s.columns[suit].cards) + OptMs(s.columns[suit].reserveSuit)
            == AllCards(s)
    ensures s.columns[suit].cards == [] && s.columns[suit].reserveSuit.None? ==>
              AllCards(HandleCardPlace(s, suit, 0)) == AllCards(s)
  {
    assert HandleCardPlace(s, suit, 0) == PlaceAce(s, suit, ace, act) by {
      AceDispatch(s, suit, ace, act);
    }
    assert ace.id != act.id by {
      HeldPairDistinct(s, ace, act);
    }
    PlaceAceLoss(s, suit, ace, act);
  }

  /** Opening a column with a held pair takes the column's old cards and slot card out of play, and nothing else. */
  lemma PlaceAceLoss(s: State, suit: Suit, ace: Card, act: Card)
    requires SelectedPair(s, ace, act) && ace.id != act.id
    requires ace in Held(s) && act in Held(s) && DistinctIds(Held(s))
    requires suit in s.columns
    ensures AllCards(PlaceAce(s, suit, ace, act)) + multiset(s.columns[suit].cards) + OptMs(s.columns[suit].reserveSuit)
            == AllCards(s)
  {
    var col := s.columns[suit];
    var s0 := s.(columns := s.columns[suit := col.(cards := [], reserveSuit := None)]);
    assert AllCards(PlaceAce(s, suit, ace, act)) == AllCards(s0) by {
      PlaceAceOverwrites(s, suit, ace, act);
      PlaceAceConserves(s0, suit, ace, act);
    }
    ClearedColumnLoss(s, suit);
  }

  /** Opening a column ignores the column's old cards and slot card. */
  lemma PlaceAceOverwrites(s: State, suit: Suit, ace: Card, act: Card)
    requires suit in s.columns
    ensures var col := s.columns[suit];
            PlaceAce(s.(columns := s.columns[suit := col.(cards := [], reserveSuit := None)]), suit, ace, act)
              == PlaceAce(s, suit, ace, act)
  {
    var col := s.columns[suit];
    var s0 := s.(columns := s.columns[suit := col.(cards := [], reserveSuit := None)]);
    assert s0.columns[suit := PlaceAce(s0, suit, ace, act).columns[suit]] == s.columns[suit := PlaceAce(s, suit, ace, act).columns[suit]];
  }

  /** Emptying a column's cards and slot takes exactly those cards out of play. */
  lemma ClearedColumnLoss(s: State, suit: Suit)
    requires suit in s.columns
    ensures var col := s.columns[suit];
            AllCards(s.(columns := s.columns[suit := col.(cards := [], reserveSuit := None)]))
              + multiset(col.cards) + OptMs(col.reserveSuit) == AllCards(s)
  {
    var col := s.columns[suit];
    var c0 := col.(cards := [], reserveSuit := None);
    var s0 := s.(columns := s.columns[suit := c0]);
    var L := multiset(col.cards) + OptMs(col.reserveSuit);
    ClearColumnMs(col);
    assert BoardMs(s0.columns) + L == BoardMs(s.columns) by {
      BoardUpdate(s.columns, suit, c0);
      assert PartMs(s.columns, suit) == ColumnMs(col);
      Cancel(BoardMs(s0.columns), BoardMs(s.columns), ColumnMs(col), ColumnMs(c0), L);
    }
    assert LooseMs(s0) == LooseMs(s);
    AddLoss(LooseMs(s), BoardMs(s0.columns), BoardMs(s.columns), L);
  }

  /** A column's cards are those of the column with its sequence and slot emptied, plus the sequence and the slot card. */
  lemma ClearColumnMs(col: Column)
    ensures ColumnMs(col) == ColumnMs(col.(cards := [], reserveSuit := None)) + (multiset(col.cards) + OptMs(col.reserveSuit))
  {
    var S, R, J, K := multiset(col.cards), OptMs(col.reserveSuit), OptMs(col.faceJack), OptMs(col.faceKing);
    assert ColumnMs(col.(cards := [], reserveSuit := None)) == multiset{} + multiset{} + J + K;
    forall x ensures (S + R + J + K)[x] == ((multiset{} + multiset{} + J + K) + (S + R))[x] {
    }
  }

  lemma Cancel(b0: multiset<Card>, b: multiset<Card>, c: multiset<Card>, c0: multiset<Card>, l: multiset<Card>)
    requires b0 + c == b + c0 && c == c0 + l
    ensures b0 + l == b
  {
    forall x ensures (b0 + l)[x] == b[x] {
      assert (b0 + c)[x] == (b + c0)[x];
    }
  }

  lemma AddLoss(m: multiset<Card>, b0: multiset<Card>, b: multiset<Card>, l: multiset<Card>)
    requires b0 + l == b
    ensures m + b0 + l == m + b
  {
    forall x ensures (m + b0 + l)[x] == (m + b)[x] {
      assert (b0 + l)[x] == b[x];
    }
  }

  /** Opening an empty column with a held pair of distinct identifiers moves the pair to the board. */
  lemma PlaceAceConserves(s: State, suit: Suit, ace: Card, act: Card)
    requires SelectedPair(s, ace, act) && ace.id != act.id
    requires ace in Held(s) && act in Held(s) && DistinctIds(Held(s))
    requires suit in s.columns && s.columns[suit].cards == [] && s.columns[suit].reserveSuit.None?
    ensures AllCards(PlaceAce(s, suit, ace, act)) == AllCards(s)
  {
    PairLeavesPlayer(s, ace, act);
    var r := PlaceAce(s, suit, ace, act);
    var col, col' := s.columns[suit], r.columns[suit];
    OpenColumnMs(col, ace, act);
    var Q, P, C', C := ZonesMs(r.currentPlayer), ZonesMs(s.currentPlayer), ColumnMs(col'), PartMs(s.columns, suit);
    assert C == ColumnMs(col);
    forall x ensures (Q + C')[x] == (P + C)[x] {
      assert (Q + multiset{ace, act})[x] == P[x];
      assert C'[x] == (C + multiset{ace, act})[x];
    }
    MoveConserves(s, r.currentPlayer, suit, col');
  }

  /** An opened column holds what it held before plus the Ace and the activator. */
  lemma OpenColumnMs(col: Column, ace: Card, act: Card)
    requires col.cards == [] && col.reserveSuit.None?
    ensures ColumnMs(col.(hasLuckyCard := true, cards := [ace], reserveSuit := Some(act), activatorType := Some(KindOf(act))))
            == ColumnMs(col) + multiset{ace, act}
  {
    var n := col.(hasLuckyCard := true, cards := [ace], reserveSuit := Some(act), activatorType := Some(KindOf(act)));
    var J, K := OptMs(col.faceJack), OptMs(col.faceKing);
    assert multiset(n.cards) == multiset{ace} && OptMs(n.reserveSuit) == multiset{act};
    assert multiset(col.cards) == multiset{} && OptMs(col.reserveSuit) == multiset{};
    AddPair(J, K, ace, act);
  }

  lemma AddPair(j: multiset<Card>, k: multiset<Card>, a: Card, b: Card)
    ensures multiset{a} + multiset{b} + j + k == (multiset{} + multiset{} + j + k) + multiset{a, b}
  {
    forall x ensures (multiset{a} + multiset{b} + j + k)[x] == ((multiset{} + multiset{} + j + k) + multiset{a, b})[x] {
    }
  }

  // ---------------------------------------------------------------- face cards

  lemma FaceDispatch(s: State, suit: Suit, face: Card, act: Card)
    requires SelectedPair(s, face, act) && IsJackOrKing(face) && IsActivator(act) && Regular(face) && Regular(act)
    requires face.suit == suit && suit in s.columns
    ensures HandleCardPlace(s, suit, 0) == PlaceFace(s, suit, face, act)
  {
    FindSelected(s, face, act, IsAce);
    FindSelected(s, face, act, IsJackOrKing);
    FindSelected(s, face, act, IsActivator);
    assert !AceCase(s, suit, 0) && FaceCase(s, suit, 0);
  }

  /**
   * A Jack or King of the tapped suit with an activator, at position 0: the
   * face card is attached under its own value (replacing one of the same
   * value), the activator goes to the end of the discard pile, and the
   * column's cards and slot and every other column are unchanged.
   */
  lemma FacePlacement(s: State, suit: Suit, face: Card, act: Card)
    requires SelectedPair(s, face, act) && IsJackOrKing(face) && IsActivator(act) && Regular(face) && Regular(act)
    requires face.suit == suit && suit in s.columns
    ensures var r := HandleCardPlace(s, suit, 0);
            var col, col' := s.columns[suit], r.columns[suit];
            && col'.faceJack == (if face.value == Jack then Some(face) else col.faceJack)
            && col'.faceKing == (if face.value == King then Some(face) else col.faceKing)
            && col'.cards == col.cards && col'.reserveSuit == col.reserveSuit && col'.hasLuckyCard == col.hasLuckyCard
    ensures var r := HandleCardPlace(s, suit, 0);
            forall t :: t != suit ==> SameColumn(s.columns, r.columns, t)
    ensures var r := HandleCardPlace(s, suit, 0);
            r.currentPlayer.discardPile == s.currentPlayer.discardPile + [act] && Consumed(r, 2)
  {
    FaceDispatch(s, suit, face, act);
  }

  /** Attaching a face card to a free place moves it to the board and the activator to the discard pile. */
  lemma FaceConserves(s: State, suit: Suit, face: Card, act: Card)
    requires SelectedPair(s, face, act) && IsJackOrKing(face) && IsActivator(act) && Regular(face) && Regular(act)
    requires face in Held(s) && act in Held(s) && DistinctIds(Held(s))
    requires face.suit == suit && suit in s.columns
    requires if face.value == Jack then s.columns[suit].faceJack.None? else s.columns[suit].faceKing.None?
    ensures AllCards(HandleCardPlace(s, suit, 0)) == AllCards(s)
  {
    FaceDispatch(s, suit, face, act);
    var r := PlaceFace(s, suit, face, act);
    var col, col' := s.columns[suit], r.columns[suit];
    var p, q := s.currentPlayer, r.currentPlayer;
    var M := multiset{face};
    FaceZones(s, suit, face, act);
    FaceColumn(s, suit, face, act);
    Balance(ZonesMs(q), ZonesMs(p), ColumnMs(col'), ColumnMs(col), M, multiset{});
    MoveConserves(s, q, suit, col');
  }

  /** The zones lose the face card; the activator only moves to the discard pile. */
  lemma FaceZones(s: State, suit: Suit, face: Card, act: Card)
    requires SelectedPair(s, face, act) && face != act
    requires face in Held(s) && act in Held(s) && DistinctIds(Held(s)) && suit in s.columns
    ensures ZonesMs(PlaceFace(s, suit, face, act).currentPlayer) + multiset{face} == ZonesMs(s.currentPlayer) + multiset{}
  {
    var p, q := s.currentPlayer, PlaceFace(s, suit, face, act).currentPlayer;
    var w := WithoutSelected(p, s.selectedCards);
    assert ZonesMs(w) + multiset{face, act} == ZonesMs(p) by {
      HeldPairDistinct(s, face, act);
      PairLeavesPlayer(s, face, act);
    }
    assert ZonesMs(q) == ZonesMs(w) + multiset{act} by {
      assert q == w.(discardPile := w.discardPile + [act]);
    }
    PairSplit(ZonesMs(w), face, act);
  }

  lemma PairSplit(w: multiset<Card>, a: Card, b: Card)
    ensures w + multiset{b} + multiset{a} == w + multiset{a, b} + multiset{}
  {
    forall x ensures (w + multiset{b} + multiset{a})[x] == (w + multiset{a, b} + multiset{})[x] {
    }
  }

  /** The column gains exactly the face card when its place was free. */
  lemma FaceColumn(s: State, suit: Suit, face: Card, act: Card)
    requires IsJackOrKing(face) && suit in s.columns
    requires if face.value == Jack then s.columns[suit].faceJack.None? else s.columns[suit].faceKing.None?
    ensures ColumnMs(PlaceFace(s, suit, face, act).columns[suit]) + multiset{} == ColumnMs(s.columns[suit]) + multiset{face}
  {
    var col, col' := s.columns[suit], PlaceFace(s, suit, face, act).columns[suit];
    var K, M := multiset(col.cards) + OptMs(col.reserveSuit), multiset{face};
    if face.value == Jack {
      assert ColumnMs(col') == K + M + OptMs(col.faceKing);
      assert ColumnMs(col) == K + multiset{} + OptMs(col.faceKing);
    } else {
      assert ColumnMs(col') == K + OptMs(col.faceJack) + M;
      assert ColumnMs(col) == K + OptMs(col.faceJack) + multiset{};
    }
  }

  // ---------------------------------------------------------------- a 7 at position 7

  lemma SevenDispatch(s: State, suit: Suit, seven: Card)
    requires s.selectedCards == [seven] && IsSeven(seven) && seven.suit == suit && suit in s.columns
    ensures HandleCardPlace(s, suit, 7) == PlaceSevenAt(s, suit, seven, 7)
  {
  }

  /**
   * A lone 7 tapped at position 7 of its own column: it takes position 7 (or
   * is appended to a shorter column), the slot and its activator kind are
   * cleared, and the card the slot guarded goes to the zone the 7 came from,
   * which is the hand when the hand holds its identifier and the reserve
   * otherwise.
   */
  lemma SevenAtPositionSeven(s: State, suit: Suit, seven: Card)
    requires s.selectedCards == [seven] && IsSeven(seven) && seven.suit == suit && suit in s.columns
    ensures var r := HandleCardPlace(s, suit, 7);
            var col, col' := s.columns[suit], r.columns[suit];
            && (|col.cards| <= 7 ==> col'.cards == col.cards + [seven])
            && (|col.cards| > 7 ==> |col'.cards| == |col.cards| && col'.cards[7] == seven)
            && col'.reserveSuit.None? && col'.activatorType.None?
            && col'.hasLuckyCard == col.hasLuckyCard && col'.faceJack == col.faceJack && col'.faceKing == col.faceKing
    ensures var r := HandleCardPlace(s, suit, 7);
            var back := s.columns[suit].reserveSuit;
            && (HasId(s.currentPlayer.hand, seven.id) ==>
                  r.currentPlayer.reserve == s.currentPlayer.reserve
                  && forall c :: c in r.currentPlayer.hand <==>
                       (c in s.currentPlayer.hand && c.id != seven.id) || back == Some(c))
            && (!HasId(s.currentPlayer.hand, seven.id) ==>
                  r.currentPlayer.hand == s.currentPlayer.hand
                  && forall c :: c in r.currentPlayer.reserve <==>
                       (c in s.currentPlayer.reserve && c.id != seven.id) || back == Some(c))
    ensures var r := HandleCardPlace(s, suit, 7);
            && (forall t :: t != suit ==> SameColumn(s.columns, r.columns, t))
            && r.phase == Action && Consumed(r, 1) && r.currentPlayer.discardPile == s.currentPlayer.discardPile
  {
    SevenDispatch(s, suit, seven);
  }

  /** Setting a held 7 on a column of at most seven cards moves cards between zones and board only. */
  lemma SevenConserves(s: State, suit: Suit, seven: Card)
    requires s.selectedCards == [seven] && IsSeven(seven) && seven.suit == suit && suit in s.columns
    requires seven in Held(s) && DistinctIds(Held(s)) && |s.columns[suit].cards| <= 7
    ensures AllCards(HandleCardPlace(s, suit, 7)) == AllCards(s)
  {
    SevenDispatch(s, suit, seven);
    var p := s.currentPlayer;
    var r := PlaceSevenAt(s, suit, seven, 7);
    var col, col' := s.columns[suit], r.columns[suit];
    var q := r.currentPlayer;
    var B, S := OptMs(col.reserveSuit), multiset{seven};
    SwapIntoOriginMs(p, seven, SlotCards(col));
    assert ColumnMs(col') + B == ColumnMs(col) + S by {
      assert ColumnMs(col') == multiset(col.cards) + S + multiset{} + OptMs(col.faceJack) + OptMs(col.faceKing);
    }
    Balance(ZonesMs(q), ZonesMs(p), ColumnMs(col'), ColumnMs(col), S, B);
    MoveConserves(s, q, suit, col');
  }

  // ---------------------------------------------------------------- the Queen combination

  lemma QueenDispatch(s: State, suit: Suit, position: int, queen: Card, act: Card)
    requires SelectedPair(s, queen, act) && IsQueen(queen) && IsActivator(act) && Regular(queen) && Regular(act)
    ensures HandleCardPlace(s, suit, position) == QueenCombo(s, queen, act)
  {
    QueenFinds(s, queen, act);
    assert !AceCase(s, suit, position) && !FaceCase(s, suit, position) && QueenCase(s);
  }

  lemma QueenFinds(s: State, queen: Card, act: Card)
    requires SelectedPair(s, queen, act) && IsQueen(queen) && IsActivator(act) && Regular(queen) && Regular(act)
    ensures Find(s.selectedCards, IsAce).None? && Find(s.selectedCards, IsJackOrKing).None?
    ensures Find(s.selectedCards, IsQueen) == Some(queen) && Find(s.selectedCards, IsActivator) == Some(act)
  {
    FindSelected(s, queen, act, IsAce);
    FindSelected(s, queen, act, IsJackOrKing);
    FindSelected(s, queen, act, IsQueen);
    FindSelected(s, queen, act, IsActivator);
  }

  /**
   * A Queen with an activator, on any column and at any position: both leave
   * hand and reserve and are appended to the discard pile in that order, the
   * first column whose slot holds the activator's identifier loses it, the
   * phase stays in action with the next phase staged from the cards left,
   * and health and maximum health do not change.
   */
  lemma QueenComboEffect(s: State, suit: Suit, position: int, queen: Card, act: Card)
    requires SelectedPair(s, queen, act) && IsQueen(queen) && IsActivator(act) && Regular(queen) && Regular(act)
    ensures var r := HandleCardPlace(s, suit, position);
            && r.currentPlayer.health == s.currentPlayer.health
            && r.currentPlayer.maxHealth == s.currentPlayer.maxHealth
            && r.currentPlayer.discardPile == s.currentPlayer.discardPile + [queen, act]
            && r.phase == Action && r.nextPhase == Some(PhaseForCount(HeldCount(r)))
            && Consumed(r, 2)
    ensures var r := HandleCardPlace(s, suit, position);
            && (forall c :: c in r.currentPlayer.hand <==> c in s.currentPlayer.hand && c.id != queen.id && c.id != act.id)
            && (forall c :: c in r.currentPlayer.reserve <==> c in s.currentPlayer.reserve && c.id != queen.id && c.id != act.id)
    ensures var r := HandleCardPlace(s, suit, position);
            && ((forall t :: !SlotHolds(s.columns, t, act.id)) ==> r.columns == s.columns)
            && (forall t :: SlotHolder(s.columns, act.id) == Some(t) ==>
                  r.columns == s.columns[t := s.columns[t].(reserveSuit := None)])
  {
    QueenDispatch(s, suit, position, queen, act);
    QueenComboLeaves(s, queen, act);
  }

  /** The combination filters the Queen's and the activator's identifiers out of hand and reserve. */
  lemma QueenComboLeaves(s: State, queen: Card, act: Card)
    requires SelectedPair(s, queen, act)
    ensures var r := QueenCombo(s, queen, act);
            && (forall c :: c in r.currentPlayer.hand <==> c in s.currentPlayer.hand && c.id != queen.id && c.id != act.id)
            && (forall c :: c in r.currentPlayer.reserve <==> c in s.currentPlayer.reserve && c.id != queen.id && c.id != act.id)
  {
    PairIds(s, queen, act);
    var r := QueenCombo(s, queen, act);
    assert r.currentPlayer.hand == WithoutIds(s.currentPlayer.hand, {queen.id, act.id});
    assert r.currentPlayer.reserve == WithoutIds(s.currentPlayer.reserve, {queen.id, act.id});
  }

  /** With both cards held and no slot holding the activator, the combination moves both to the discard pile. */
  lemma QueenConserves(s: State, suit: Suit, position: int, queen: Card, act: Card)
    requires SelectedPair(s, queen, act) && IsQueen(queen) && IsActivator(act) && Regular(queen) && Regular(act)
    requires queen in Held(s) && act in Held(s) && DistinctIds(Held(s))
    requires forall t :: !SlotHolds(s.columns, t, act.id)
    ensures AllCards(HandleCardPlace(s, suit, position)) == AllCards(s)
  {
    QueenDispatch(s, suit, position, queen, act);
    PairDiscarded(s, queen, act);
    var r := QueenCombo(s, queen, act);
    var q := r.currentPlayer;
    PlayerConserves(s, q);
  }

  /**
   * With the Queen held and the activator taken from a column's slot rather
   * than held, the combination moves the activator from that slot to the
   * discard pile along with the Queen: no card is lost or invented.
   */
  lemma QueenFromSlotConserves(s: State, suit: Suit, position: int, queen: Card, act: Card, t: Suit)
    requires SelectedPair(s, queen, act) && IsQueen(queen) && IsActivator(act) && Regular(queen) && Regular(act)
    requires queen in Held(s) && DistinctIds(Held(s)) && act.id !in IdsOf(Held(s))
    requires SlotHolder(s.columns, act.id) == Some(t) && s.columns[t].reserveSuit == Some(act)
    ensures AllCards(HandleCardPlace(s, suit, position)) == AllCards(s)
  {
    assert HandleCardPlace(s, suit, position) == QueenCombo(s, queen, act) by {
      QueenDispatch(s, suit, position, queen, act);
    }
    QueenComboFromSlot(s, queen, act, t);
  }

  /** The combination with a slot-held activator moves it and the held Queen to the discard pile. */
  lemma QueenComboFromSlot(s: State, queen: Card, act: Card, t: Suit)
    requires SelectedPair(s, queen, act)
    requires queen in Held(s) && DistinctIds(Held(s)) && act.id !in IdsOf(Held(s))
    requires SlotHolder(s.columns, act.id) == Some(t) && s.columns[t].reserveSuit == Some(act)
    ensures AllCards(QueenCombo(s, queen, act)) == AllCards(s)
  {
    var q := QueenComboPlayer(s, queen, act);
    var ncol := s.columns[t].(reserveSuit := None);
    QueenComboShape(s, queen, act, t);
    QueenSlotZones(s, queen, act);
    assert ColumnMs(ncol) + multiset{act} == PartMs(s.columns, t) + multiset{} by {
      assert PartMs(s.columns, t) == ColumnMs(s.columns[t]);
      ClearSlotMs(s.columns[t]);
    }
    Balance(ZonesMs(q), ZonesMs(s.currentPlayer), ColumnMs(ncol), PartMs(s.columns, t), multiset{}, multiset{act});
    MoveConserves(s, q, t, ncol);
  }

  /** The player after the Queen combination: the selection filtered out, Queen and activator discarded. */
  function QueenComboPlayer(s: State, queen: Card, act: Card): Player
  {
    var w := WithoutSelected(s.currentPlayer, s.selectedCards);
    w.(discardPile := w.discardPile + [queen, act])
  }

  /** The combination writes its player and empties the slot of the column found. */
  lemma QueenComboShape(s: State, queen: Card, act: Card, t: Suit)
    requires SlotHolder(s.columns, act.id) == Some(t)
    ensures AllCards(QueenCombo(s, queen, act))
            == AllCards(s.(currentPlayer := QueenComboPlayer(s, queen, act), columns := s.columns[t := s.columns[t].(reserveSuit := None)]))
  {
    var r := QueenCombo(s, queen, act);
    assert r.currentPlayer == QueenComboPlayer(s, queen, act);
    assert r.columns == s.columns[t := s.columns[t].(reserveSuit := None)];
  }

  /** With only the Queen held, the player's cards gain the activator: the Queen moves within them. */
  lemma QueenSlotZones(s: State, queen: Card, act: Card)
    requires SelectedPair(s, queen, act)
    requires queen in Held(s) && DistinctIds(Held(s)) && act.id !in IdsOf(Held(s))
    ensures ZonesMs(QueenComboPlayer(s, queen, act)) + multiset{} == ZonesMs(s.currentPlayer) + multiset{act}
  {
    var w := WithoutSelected(s.currentPlayer, s.selectedCards);
    QueenOnlyLeaves(s, queen, act);
    DiscardAppendMs(w, [queen, act]);
    assert multiset([queen, act]) == multiset{queen} + multiset{act};
    AddInto(ZonesMs(QueenComboPlayer(s, queen, act)), ZonesMs(w), ZonesMs(s.currentPlayer), multiset{queen}, multiset{act});
  }

  /** Removing the selection when only the Queen is held takes exactly the Queen out of the player's cards. */
  lemma QueenOnlyLeaves(s: State, queen: Card, act: Card)
    requires SelectedPair(s, queen, act)
    requires queen in Held(s) && DistinctIds(Held(s)) && act.id !in IdsOf(Held(s))
    ensures ZonesMs(WithoutSelected(s.currentPlayer, s.selectedCards)) + multiset{queen} == ZonesMs(s.currentPlayer)
  {
    var p := s.currentPlayer;
    var h, v := p.hand, p.reserve;
    var wh, wv := WithoutIds(h, {queen.id}), WithoutIds(v, {queen.id});
    var w := WithoutSelected(p, s.selectedCards);
    assert w.hand == wh && w.reserve == wv by {
      PairIds(s, queen, act);
      assert {queen.id, act.id} == {queen.id} + {act.id};
      assert forall c :: c in h ==> c.id != act.id by {
        assert forall c :: c in h ==> c in h + v;
      }
      assert forall c :: c in v ==> c.id != act.id by {
        assert forall c :: c in v ==> c in h + v;
      }
      WithoutAbsentId(h, {queen.id}, act.id);
      WithoutAbsentId(v, {queen.id}, act.id);
    }
    assert multiset(wh) + multiset(wv) + multiset{queen} == multiset(h) + multiset(v) by {
      RemoveOneFromZones(h, v, queen);
    }
    AddDiscard(multiset(wh), multiset(wv), multiset(h), multiset(v), multiset(p.discardPile), multiset{queen});
  }

  lemma AddDiscard(wh: multiset<Card>, wv: multiset<Card>, h: multiset<Card>, v: multiset<Card>, d: multiset<Card>, x: multiset<Card>)
    requires wh + wv + x == h + v
    ensures wh + wv + d + x == h + v + d
  {
    forall c ensures (wh + wv + d + x)[c] == (h + v + d)[c] {
      assert (wh + wv + x)[c] == (h + v)[c];
    }
  }

  /** A column holds what it holds with its slot emptied, plus the slot card. */
  lemma ClearSlotMs(col: Column)
    ensures ColumnMs(col.(reserveSuit := None)) + OptMs(col.reserveSuit) == ColumnMs(col)
  {
    var S, R, J, K := multiset(col.cards), OptMs(col.reserveSuit), OptMs(col.faceJack), OptMs(col.faceKing);
    assert ColumnMs(col.(reserveSuit := None)) == S + multiset{} + J + K;
    forall x ensures (S + multiset{} + J + K + R)[x] == (S + R + J + K)[x] {
    }
  }

  lemma AddInto(zq: multiset<Card>, zw: multiset<Card>, zp: multiset<Card>, x: multiset<Card>, y: multiset<Card>)
    requires zq == zw + (x + y) && zw + x == zp
    ensures zq + multiset{} == zp + y
  {
    forall c ensures (zq + multiset{})[c] == (zp + y)[c] {
      assert (zw + x)[c] == zp[c];
    }
  }
}
