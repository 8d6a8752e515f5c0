/**
 * Exchanging a held activator (a seven or a Joker) for the activator that
 * guards a column.
 */
module Exchange {

  import opened Wrappers
  import opened Cards
  import opened Zones
  import opened Game
  import opened Placement

  /** Why an exchange is refused with a message, or `None` when it is not refused that way. */
  function ExchangeRefusal(columnCard: Card, playerCard: Card): (r: Option<Msg>)
    ensures r.Some? <==> (columnCard.value == playerCard.value && columnCard.suit == playerCard.suit)
                         || (IsJoker(columnCard) && IsJoker(playerCard) && columnCard.color == playerCard.color)
  {
    if columnCard.value == playerCard.value && columnCard.suit == playerCard.suit then Some(IdenticalCards)
    else if IsJoker(columnCard) && IsJoker(playerCard) && columnCard.color == playerCard.color then Some(SameColorJokers)
    else None
  }

  /**
   * The player after the exchange: `playerCard` is filtered out of both hand
   * and reserve, and `columnCard` joins the hand when the hand held
   * `playerCard`'s identifier, the reserve otherwise.
   */
  function ExchangePlayer(p: Player, columnCard: Card, playerCard: Card): Player
  {
    var inHand := HasId(p.hand, playerCard.id);
    p.(hand := WithoutIds(p.hand, {playerCard.id}) + (if inHand then [columnCard] else []),
       reserve := WithoutIds(p.reserve, {playerCard.id}) + (if inHand then [] else [columnCard]))
  }

  /**
   * Exchange `playerCard` for `columnCard`. Outside an open action, or when
   * either card is not an activator, nothing happens; identical cards and
   * two Jokers of one colour are refused with a message; when no column's
   * slot holds `columnCard`'s identifier nothing happens. Otherwise the
   * column found, with `playerCard` in its slot, is written at key `suit`.
   */
  function HandleActivatorExchange(s: State, suit: Suit, columnCard: Card, playerCard: Card): (r: State)
    ensures s.phase != Action || s.hasPlayedAction || !IsActivator(columnCard) || !IsActivator(playerCard) ==> r == s
    ensures s.phase == Action && !s.hasPlayedAction && IsActivator(columnCard) && IsActivator(playerCard)
            && ExchangeRefusal(columnCard, playerCard).Some? ==>
              r == s.(message := ExchangeRefusal(columnCard, playerCard).value)
    ensures ExchangeRefusal(columnCard, playerCard).None? && SlotHolder(s.columns, columnCard.id).None? ==> r == s
    ensures Exchanges(s, columnCard, playerCard) ==>
              && r.hasPlayedAction && r.selectedCards == [] && r.message == CardPlaced
              && suit in r.columns
              && r.columns[suit] == s.columns[SlotHolder(s.columns, columnCard.id).value].(reserveSuit := Some(playerCard))
              && (forall t :: t != suit ==> SameColumn(r.columns, s.columns, t))
    ensures r.deck == s.deck && r.phase == s.phase && r.turn == s.turn
            && r.currentPlayer.discardPile == s.currentPlayer.discardPile
  {
    if s.phase != Action || s.hasPlayedAction then s
    else if !IsActivator(columnCard) || !IsActivator(playerCard) then s
    else match ExchangeRefusal(columnCard, playerCard)
      case Some(m) => s.(message := m)
      case None =>
        match SlotHolder(s.columns, columnCard.id)
        case None => s
        case Some(t) => ExchangeAt(s, suit, t, columnCard, playerCard)
  }

  /** The exchange once the column at `t` is found to hold the column card: that column, re-slotted, is written at `suit`. */
  function ExchangeAt(s: State, suit: Suit, t: Suit, columnCard: Card, playerCard: Card): (r: State)
    requires t in s.columns
    ensures r.currentPlayer == ExchangePlayer(s.currentPlayer, columnCard, playerCard)
    ensures suit in r.columns && r.columns[suit] == s.columns[t].(reserveSuit := Some(playerCard))
    ensures forall u :: u != suit ==> SameColumn(r.columns, s.columns, u)
    ensures r.hasPlayedAction && r.selectedCards == [] && r.message == CardPlaced
    ensures r.deck == s.deck && r.phase == s.phase && r.turn == s.turn
  {
    s.(currentPlayer := ExchangePlayer(s.currentPlayer, columnCard, playerCard),
       columns := s.columns[suit := s.columns[t].(reserveSuit := Some(playerCard))],
       selectedCards := [], hasPlayedAction := true, message := CardPlaced)
  }

  /** An exchange that goes through is the exchange at the column the slot search finds. */
  lemma ExchangeDispatch(s: State, suit: Suit, columnCard: Card, playerCard: Card)
    requires Exchanges(s, columnCard, playerCard)
    ensures SlotHolder(s.columns, columnCard.id).value in s.columns
    ensures HandleActivatorExchange(s, suit, columnCard, playerCard)
            == ExchangeAt(s, suit, SlotHolder(s.columns, columnCard.id).value, columnCard, playerCard)
  {
  }

  /** An exchange that goes through: open action, two activators, no refusal, and a slot holding the column card. */
  predicate Exchanges(s: State, columnCard: Card, playerCard: Card)
  {
    && s.phase == Action && !s.hasPlayedAction
    && IsActivator(columnCard) && IsActivator(playerCard)
    && ExchangeRefusal(columnCard, playerCard).None?
    && SlotHolder(s.columns, columnCard.id).Some?
  }

  /**
   * The store's own exchange handler as written. It applies the same guards
   * and refusals, but once a slot holding the column card is found it pushes
   * onto an undeclared list, so the update throws and the state is unchanged.
   */
  function StoreActivatorExchange(s: State, suit: Suit, columnCard: Card, playerCard: Card): (r: State)
    ensures r == s || r == s.(message := r.message)
  {
    if s.phase != Action || s.hasPlayedAction then s
    else if !IsActivator(columnCard) || !IsActivator(playerCard) then s
    else match ExchangeRefusal(columnCard, playerCard)
      case Some(m) => s.(message := m)
      case None => s
  }

  /**
   * The store's handler as written agrees with the working exchange wherever
   * the exchange does not go through. Where it does go through, the store's
   * handler leaves the action unplayed, while the working one plays it.
   */
  lemma StoreExchangeAsWritten(s: State, suit: Suit, columnCard: Card, playerCard: Card)
    ensures !Exchanges(s, columnCard, playerCard) ==>
              StoreActivatorExchange(s, suit, columnCard, playerCard) == HandleActivatorExchange(s, suit, columnCard, playerCard)
    ensures Exchanges(s, columnCard, playerCard) ==>
              && StoreActivatorExchange(s, suit, columnCard, playerCard) == s
              && !s.hasPlayedAction
              && HandleActivatorExchange(s, suit, columnCard, playerCard).hasPlayedAction
  {
  }

  /** For a held card with a distinct identifier, the exchange's player is the swap into the card's zone. */
  lemma ExchangePlayerIsSwap(p: Player, columnCard: Card, playerCard: Card)
    requires playerCard in p.hand + p.reserve && DistinctIds(p.hand + p.reserve)
    ensures ExchangePlayer(p, columnCard, playerCard) == SwapIntoOrigin(p, playerCard, [columnCard])
  {
    HeldOnce(p.hand, p.reserve, playerCard);
    HasIdIsIdsOf(p.hand, playerCard.id);
    if playerCard in p.hand {
      WithoutAbsentIds(p.reserve, {playerCard.id});
    } else {
      WithoutAbsentIds(p.hand, {playerCard.id});
    }
  }

  /**
   * An exchange at the key of the column whose slot holds the column card
   * loses and invents no card: the held card and the slot card trade places.
   */
  lemma ExchangeConserves(s: State, suit: Suit, columnCard: Card, playerCard: Card)
    requires Exchanges(s, columnCard, playerCard)
    requires SlotHolder(s.columns, columnCard.id) == Some(suit)
    requires s.columns[suit].reserveSuit == Some(columnCard)
    requires playerCard in Held(s) && DistinctIds(Held(s))
    ensures AllCards(HandleActivatorExchange(s, suit, columnCard, playerCard)) == AllCards(s)
  {
    ExchangeDispatch(s, suit, columnCard, playerCard);
    ExchangeAtConserves(s, suit, columnCard, playerCard);
  }

  /** Re-slotting the column whose slot holds the column card trades the held card for it. */
  lemma ExchangeAtConserves(s: State, suit: Suit, columnCard: Card, playerCard: Card)
    requires suit in s.columns && s.columns[suit].reserveSuit == Some(columnCard)
    requires playerCard in Held(s) && DistinctIds(Held(s))
    ensures AllCards(ExchangeAt(s, suit, suit, columnCard, playerCard)) == AllCards(s)
  {
    var p := s.currentPlayer;
    var q := ExchangePlayer(p, columnCard, playerCard);
    var col := s.columns[suit];
    var ncol := col.(reserveSuit := Some(playerCard));
    var a, b := multiset{playerCard}, multiset{columnCard};
    assert ZonesMs(q) + a == ZonesMs(p) + b by {
      ExchangePlayerIsSwap(p, columnCard, playerCard);
      SwapIntoOriginMs(p, playerCard, [columnCard]);
      assert multiset([columnCard]) == b;
    }
    assert ColumnMs(ncol) + b == PartMs(s.columns, suit) + a by {
      SlotSwapMs(col, ncol, playerCard);
    }
    Balance(ZonesMs(q), ZonesMs(p), ColumnMs(ncol), PartMs(s.columns, suit), a, b);
    MoveConserves(s, q, suit, ncol);
  }

  /**
   * An exchange of a held card keeps the size of hand and reserve, so it
   * keeps them within their capacities, and the player then holds the column
   * card in place of their own.
   */
  lemma ExchangeKeepsSizes(s: State, suit: Suit, columnCard: Card, playerCard: Card)
    requires Exchanges(s, columnCard, playerCard)
    requires playerCard in Held(s) && DistinctIds(Held(s)) && columnCard != playerCard
    ensures var r := HandleActivatorExchange(s, suit, columnCard, playerCard);
            && |r.currentPlayer.hand| == |s.currentPlayer.hand|
            && |r.currentPlayer.reserve| == |s.currentPlayer.reserve|
            && columnCard in Held(r) && playerCard !in Held(r)
  {
    var p := s.currentPlayer;
    ExchangeDispatch(s, suit, columnCard, playerCard);
    ExchangePlayerIsSwap(p, columnCard, playerCard);
    HeldOnce(p.hand, p.reserve, playerCard);
    HasIdIsIdsOf(p.hand, playerCard.id);
    if playerCard in p.hand {
      RemoveOne(p.hand, playerCard);
      assert playerCard !in WithoutIds(p.hand, {playerCard.id});
      assert playerCard !in p.reserve;
    } else {
      RemoveOne(p.reserve, playerCard);
      assert playerCard !in WithoutIds(p.reserve, {playerCard.id});
      assert playerCard !in p.hand;
    }
  }
}
