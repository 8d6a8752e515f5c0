/**
 * The column button: it offers to exchange the selected activator with the
 * column's guarded slot, or else to place the seven of the column's suit on
 * top of a column whose sixth card is a six.
 */
module ExchangeButton {

  import opened Wrappers
  import opened Cards
  import opened Zones
  import opened Game
  import opened Placement
  import opened Exchange

  datatype Button = ExchangeOffer | PlaceOffer | NoButton

  /** The exchange is offered: an open action, one selected activator, and a card in the column's slot. */
  predicate CanExchange(s: State, column: Column)
  {
    && s.phase == Action && !s.hasPlayedAction
    && |s.selectedCards| == 1 && IsActivator(s.selectedCards[0])
    && column.reserveSuit.Some?
  }

  /** The seven of suit `key`. */
  predicate SevenOf(c: Card, key: Suit)
  {
    IsSeven(c) && c.suit == key
  }

  /** The slot holds the seven of suit `key`. */
  predicate SlotHasSevenOf(column: Column, key: Suit)
  {
    column.reserveSuit.Some? && SevenOf(column.reserveSuit.value, key)
  }

  /**
   * The placement is offered: the column's sixth card is a six, no seven is
   * among its cards, the action is open, and the seven of the six's suit is
   * in hand, in reserve or in the column's slot.
   */
  predicate CanPlaceCard(s: State, column: Column)
  {
    && |column.cards| > 5 && IsSix(column.cards[5])
    && (forall c :: c in column.cards ==> !IsSeven(c))
    && s.phase == Action && !s.hasPlayedAction
    && var key := column.cards[5].suit;
       || (exists c :: c in s.currentPlayer.hand && SevenOf(c, key))
       || (exists c :: c in s.currentPlayer.reserve && SevenOf(c, key))
       || SlotHasSevenOf(column, key)
  }

  /** Which button the column shows; the exchange takes precedence over the placement. */
  function ButtonFor(s: State, column: Column): (b: Button)
    ensures b == ExchangeOffer <==> CanExchange(s, column)
    ensures b == PlaceOffer <==> !CanExchange(s, column) && CanPlaceCard(s, column)
    ensures b == NoButton <==> !CanExchange(s, column) && !CanPlaceCard(s, column)
  {
    if CanExchange(s, column) then ExchangeOffer
    else if CanPlaceCard(s, column) then PlaceOffer
    else NoButton
  }

  /** Pressing the exchange button: both cards must be activators, then the store's exchange runs. */
  function ClickExchange(s: State, suit: Suit, column: Column): (r: State)
    requires CanExchange(s, column)
    ensures !IsActivator(column.reserveSuit.value) ==> r == s
    ensures IsActivator(column.reserveSuit.value) ==>
              r == HandleActivatorExchange(s, suit, column.reserveSuit.value, s.selectedCards[0])
  {
    var selected := s.selectedCards[0];
    if IsActivator(selected) && IsActivator(column.reserveSuit.value) then
      HandleActivatorExchange(s, suit, column.reserveSuit.value, selected)
    else s
  }

  /** Pressing the exchange button in the program as written, which runs the store's own exchange handler. */
  function ClickExchangeAsWritten(s: State, suit: Suit, column: Column): (r: State)
    requires CanExchange(s, column)
    ensures r == s || r == s.(message := r.message)
  {
    var selected := s.selectedCards[0];
    if IsActivator(selected) && IsActivator(column.reserveSuit.value) then
      StoreActivatorExchange(s, suit, column.reserveSuit.value, selected)
    else s
  }

  /**
   * As written, an exchange the button offers and the handler accepts does
   * nothing: the action stays unplayed and the player keeps their card. The
   * intended click plays the action and hands the slot card to the player.
   */
  lemma ClickExchangeAsWrittenIsInert(s: State, suit: Suit, column: Column)
    requires CanExchange(s, column)
    requires Exchanges(s, column.reserveSuit.value, s.selectedCards[0])
    requires s.selectedCards[0] in Held(s) && DistinctIds(Held(s)) && column.reserveSuit.value != s.selectedCards[0]
    ensures ClickExchangeAsWritten(s, suit, column) == s
    ensures var r := ClickExchange(s, suit, column);
            && r.hasPlayedAction && !s.hasPlayedAction
            && column.reserveSuit.value in Held(r) && s.selectedCards[0] !in Held(r)
  {
    StoreExchangeAsWritten(s, suit, column.reserveSuit.value, s.selectedCards[0]);
    ExchangeKeepsSizes(s, suit, column.reserveSuit.value, s.selectedCards[0]);
  }

  /** The seven the placement uses, searched in hand, then reserve, then the column's slot. */
  function PickSeven(s: State, column: Column, key: Suit): (r: Option<Card>)
    ensures r.Some? ==> SevenOf(r.value, key)
    ensures r.None? <==> (forall c :: c in s.currentPlayer.hand ==> !SevenOf(c, key))
                         && (forall c :: c in s.currentPlayer.reserve ==> !SevenOf(c, key))
                         && !SlotHasSevenOf(column, key)
    ensures r.Some? ==> r.value in s.currentPlayer.hand || r.value in s.currentPlayer.reserve
                        || column.reserveSuit == r
    ensures (exists c :: c in s.currentPlayer.hand && SevenOf(c, key)) ==>
              && r.Some? && r.value in s.currentPlayer.hand
              && exists i :: 0 <= i < |s.currentPlayer.hand| && s.currentPlayer.hand[i] == r.value
                             && forall k :: 0 <= k < i ==> !SevenOf(s.currentPlayer.hand[k], key)
    ensures (forall c :: c in s.currentPlayer.hand ==> !SevenOf(c, key))
            && (exists c :: c in s.currentPlayer.reserve && SevenOf(c, key)) ==>
              r.Some? && r.value in s.currentPlayer.reserve
    ensures (forall c :: c in s.currentPlayer.hand ==> !SevenOf(c, key))
            && (forall c :: c in s.currentPlayer.reserve ==> !SevenOf(c, key)) ==>
              r == (if SlotHasSevenOf(column, key) then column.reserveSuit else None)
  {
    var fromHand := Find(s.currentPlayer.hand, c => SevenOf(c, key));
    var fromReserve := Find(s.currentPlayer.reserve, c => SevenOf(c, key));
    if fromHand.Some? then fromHand
    else if fromReserve.Some? then fromReserve
    else if SlotHasSevenOf(column, key) then column.reserveSuit
    else None
  }

  /** The column after the placement: the seven on top, the slot emptied, the reserve blocked. */
  function SevenOnTop(column: Column, seven: Card): Column
  {
    column.(cards := column.cards + [seven], reserveSuit := None, activatorType := None, isReserveBlocked := true)
  }

  /**
   * The player after the placement: the seven leaves the zone it was found
   * in, and the slot's previous card joins that zone while the zone is below
   * its capacity. A seven taken from the slot changes neither zone.
   */
  function ButtonPlayer(p: Player, column: Column, seven: Card, fromHand: bool, fromReserve: bool): Player
  {
    if fromHand then
      p.(hand := WithoutIds(p.hand, {seven.id})
                 + (if column.reserveSuit.Some? && |p.hand| < MaxHand then [column.reserveSuit.value] else []))
    else if fromReserve then
      p.(reserve := WithoutIds(p.reserve, {seven.id})
                    + (if column.reserveSuit.Some? && |p.reserve| < MaxReserve then [column.reserveSuit.value] else []))
    else p
  }

  /**
   * The placement once the seven is known. With a card in the slot and the
   * seven's zone at capacity (the reserve's, for a seven in the slot), only
   * a message is shown. Otherwise the column, rebuilt from the button's copy,
   * is written at the key of its sixth card's suit.
   */
  function PlaceWith(s: State, column: Column, seven: Card, fromHand: bool, fromReserve: bool): (r: State)
    requires |column.cards| > 5
    ensures var size := if fromHand then |s.currentPlayer.hand| else |s.currentPlayer.reserve|;
            var cap := if fromHand then MaxHand else MaxReserve;
            !(size >= cap && column.reserveSuit.Some?) ==>
              && r.columns == s.columns[column.cards[5].suit := SevenOnTop(column, seven)]
              && r.currentPlayer == ButtonPlayer(s.currentPlayer, column, seven, fromHand, fromReserve)
              && r.hasPlayedAction && r.phase == Action && r.selectedCards == s.selectedCards
    ensures r.deck == s.deck && r.turn == s.turn
  {
    var p := s.currentPlayer;
    var size := if fromHand then |p.hand| else |p.reserve|;
    var cap := if fromHand then MaxHand else MaxReserve;
    if size >= cap && column.reserveSuit.Some? then s.(message := LimitExceeded)
    else
      s.(columns := s.columns[column.cards[5].suit := SevenOnTop(column, seven)],
         currentPlayer := ButtonPlayer(p, column, seven, fromHand, fromReserve),
         hasPlayedAction := true,
         message := if column.reserveSuit.Some? then SevenSwapped else SevenPlaced, phase := Action)
  }

  /**
   * A displaced slot card with no room in the seven's zone refuses the
   * placement with a message and changes nothing else.
   */
  lemma PlaceWithRefused(s: State, column: Column, seven: Card, fromHand: bool, fromReserve: bool)
    requires |column.cards| > 5
    ensures var size := if fromHand then |s.currentPlayer.hand| else |s.currentPlayer.reserve|;
            var cap := if fromHand then MaxHand else MaxReserve;
            size >= cap && column.reserveSuit.Some? ==>
              PlaceWith(s, column, seven, fromHand, fromReserve) == s.(message := LimitExceeded)
  {
  }

  /** Pressing the placement button. */
  function ClickPlace(s: State, column: Column): (r: State)
    requires |column.cards| > 5
    ensures PickSeven(s, column, column.cards[5].suit).None? ==> r == s
    ensures r.deck == s.deck && r.turn == s.turn && r.selectedCards == s.selectedCards
  {
    var key := column.cards[5].suit;
    match PickSeven(s, column, key)
    case None => s
    case Some(seven) =>
      var fromHand := Find(s.currentPlayer.hand, c => SevenOf(c, key)).Some?;
      var fromReserve := !fromHand && Find(s.currentPlayer.reserve, c => SevenOf(c, key)).Some?;
      PlaceWith(s, column, seven, fromHand, fromReserve)
  }

  /** Pressing the column's button, whichever it shows. */
  function ClickButton(s: State, suit: Suit, column: Column): (r: State)
    ensures ButtonFor(s, column) == NoButton ==> r == s
    ensures ButtonFor(s, column) == ExchangeOffer ==> r.currentPlayer.discardPile == s.currentPlayer.discardPile
    ensures ButtonFor(s, column) == PlaceOffer ==> r.selectedCards == s.selectedCards
    ensures r.deck == s.deck && r.turn == s.turn
  {
    match ButtonFor(s, column)
    case ExchangeOffer => ClickExchange(s, suit, column)
    case PlaceOffer => ClickPlace(s, column)
    case NoButton => s
  }

  /** Where the placement finds its seven: in hand, in reserve, or in the slot. */
  datatype Origin = InHand | InReserve | InSlot

  /** The origin the placement determines for a seven found by `PickSeven`. */
  function OriginOf(s: State, key: Suit): Origin
  {
    if Find(s.currentPlayer.hand, c => SevenOf(c, key)).Some? then InHand
    else if Find(s.currentPlayer.reserve, c => SevenOf(c, key)).Some? then InReserve
    else InSlot
  }

  /** A placement that goes through: a seven is found and its zone has room for the slot card. */
  predicate Places(s: State, column: Column)
  {
    && |column.cards| > 5
    && PickSeven(s, column, column.cards[5].suit).Some?
    && var o := OriginOf(s, column.cards[5].suit);
       var size := if o == InHand then |s.currentPlayer.hand| else |s.currentPlayer.reserve|;
       var cap := if o == InHand then MaxHand else MaxReserve;
       !(size >= cap && column.reserveSuit.Some?)
  }

  /** A placement that goes through rebuilds the player as a swap of the seven for the slot card. */
  lemma PlaceDispatch(s: State, column: Column)
    requires Places(s, column)
    ensures var key := column.cards[5].suit;
            var seven := PickSeven(s, column, key).value;
            var o := OriginOf(s, key);
            && ClickPlace(s, column).columns == s.columns[key := SevenOnTop(column, seven)]
            && ClickPlace(s, column).currentPlayer
               == ButtonPlayer(s.currentPlayer, column, seven, o == InHand, o == InReserve)
            && (o == InSlot ==> column.reserveSuit == Some(seven))
            && (o == InHand ==> seven in s.currentPlayer.hand)
            && (o == InReserve ==> seven in s.currentPlayer.reserve)
            && ClickPlace(s, column).hasPlayedAction && ClickPlace(s, column).phase == Action
  {
  }

  /** When the zone has room, the button's player is the swap of the seven for the slot card. */
  lemma ButtonPlayerIsSwap(p: Player, column: Column, seven: Card, fromHand: bool)
    requires seven in p.hand + p.reserve && DistinctIds(p.hand + p.reserve)
    requires fromHand <==> seven in p.hand
    requires column.reserveSuit.Some? ==> if fromHand then |p.hand| < MaxHand else |p.reserve| < MaxReserve
    ensures ButtonPlayer(p, column, seven, fromHand, !fromHand) == SwapIntoOrigin(p, seven, SlotCards(column))
  {
    HeldOnce(p.hand, p.reserve, seven);
    HasIdIsIdsOf(p.hand, seven.id);
  }

  /** Moving the slot's seven onto the column's cards keeps the column's cards. */
  lemma SevenOnTopFromSlot(column: Column, seven: Card)
    requires column.reserveSuit == Some(seven)
    ensures ColumnMs(SevenOnTop(column, seven)) == ColumnMs(column)
  {
  }

  /** Moving a held seven onto the column trades it for the slot card. */
  lemma SevenOnTopFromZone(column: Column, seven: Card)
    ensures ColumnMs(SevenOnTop(column, seven)) + OptMs(column.reserveSuit) == ColumnMs(column) + multiset{seven}
  {
  }

  /**
   * A placement that goes through, on the column the store holds at its
   * sixth card's suit, loses and invents no card.
   */
  lemma PlaceConserves(s: State, column: Column)
    requires Places(s, column)
    requires column.cards[5].suit in s.columns && s.columns[column.cards[5].suit] == column
    requires DistinctIds(Held(s))
    ensures AllCards(ClickPlace(s, column)) == AllCards(s)
  {
    var key := column.cards[5].suit;
    var seven := PickSeven(s, column, key).value;
    var o := OriginOf(s, key);
    var p := s.currentPlayer;
    var ncol := SevenOnTop(column, seven);
    PlaceDispatch(s, column);
    var q := ClickPlace(s, column).currentPlayer;
    if o == InSlot {
      SevenOnTopFromSlot(column, seven);
      assert q == p;
      MoveConserves(s, q, key, ncol);
    } else {
      HeldOnce(p.hand, p.reserve, seven);
      ButtonPlayerIsSwap(p, column, seven, o == InHand);
      SwapIntoOriginMs(p, seven, SlotCards(column));
      SevenOnTopFromZone(column, seven);
      Balance(ZonesMs(q), ZonesMs(p), ColumnMs(ncol), PartMs(s.columns, key), multiset{seven}, OptMs(column.reserveSuit));
      MoveConserves(s, q, key, ncol);
    }
    assert AllCards(ClickPlace(s, column)) == AllCards(s.(currentPlayer := q, columns := s.columns[key := ncol]));
  }

  /** A placement that does not go through leaves the player as they were. */
  lemma PlaceRefused(s: State, column: Column)
    requires |column.cards| > 5 && !Places(s, column)
    ensures ClickPlace(s, column).currentPlayer == s.currentPlayer
    ensures ClickPlace(s, column).columns == s.columns
  {
  }

  /** The button's player keeps hand and reserve within their capacities. */
  lemma ButtonPlayerCaps(p: Player, column: Column, seven: Card, fromHand: bool, fromReserve: bool)
    requires |p.hand| <= MaxHand && |p.reserve| <= MaxReserve
    ensures var q := ButtonPlayer(p, column, seven, fromHand, fromReserve);
            |q.hand| <= MaxHand && |q.reserve| <= MaxReserve
  {
  }

  /** A placement keeps hand and reserve within their capacities. */
  lemma PlaceKeepsCaps(s: State, column: Column)
    requires |column.cards| > 5 && WithinCaps(s)
    ensures WithinCaps(ClickPlace(s, column))
  {
    if Places(s, column) {
      var key := column.cards[5].suit;
      var o := OriginOf(s, key);
      PlaceDispatch(s, column);
      ButtonPlayerCaps(s.currentPlayer, column, PickSeven(s, column, key).value, o == InHand, o == InReserve);
    } else {
      PlaceRefused(s, column);
    }
  }
}
