/**
 * The game state the store holds: the player's zones, the draw pile, the four
 * suit columns, the phase and the per-turn flags. Messages are modelled as a
 * stable key; their localised text is not part of the engine.
 */
module Game {

  import opened Wrappers
  import opened Cards

  /** Capacity of the hand and of the reserve. */
  const MaxHand: int := 5
  const MaxReserve: int := 2

  datatype Phase = Setup | Discard | Draw | Action

  datatype ActivatorKind = SevenActivator | JokerActivator

  /**
   * One suit column: its ascending cards (seeded by the Ace, the "lucky card"),
   * the guarded slot `reserveSuit` and the face cards attached to it.
   * `faceCards` is keyed by value and only ever receives a Jack or a King.
   */
  datatype Column = Column(
    cards: seq<Card>,
    reserveSuit: Option<Card>,
    activatorType: Option<ActivatorKind>,
    hasLuckyCard: bool,
    isLocked: bool,
    isReserveBlocked: bool,
    faceJack: Option<Card>,
    faceKing: Option<Card>)

  /** The column every game starts with (absent fields read as false / null). */
  const EmptyColumn: Column := Column([], None, None, false, false, false, None, None)

  datatype Player = Player(
    health: int,
    maxHealth: int,
    hand: seq<Card>,
    reserve: seq<Card>,
    discardPile: seq<Card>,
    hasUsedStrategicShuffle: bool)

  datatype QueenChallenge = QueenChallenge(isActive: bool, queen: Option<Card>)

  /** Message keys; the text behind them belongs to the presentation layer. */
  datatype Msg =
    | NoMessage | StartMessage
    | SelectActivator | SelectAce | TapColumn
    | ActionPhase | DrawPhase | DiscardPhase
    | ActionSkipped | Surrendered | ExchangeComplete
    | ShuffleFirst | ShuffleNext
    | JokerHeal | JokerAttack | QueenHeal | QueenChallengeOpened | QueenChallengeResult
    | ColumnActivated | FaceCardPlaced | QueenHealing
    | SevenPlaced | SevenSwapped
    | IdenticalCards | SameColorJokers | CardPlaced | LimitExceeded
    | RevolutionDone

  datatype State = State(
    currentPlayer: Player,
    deck: seq<Card>,
    phase: Phase,
    turn: int,
    selectedCards: seq<Card>,
    columns: map<Suit, Column>,
    hasDiscarded: bool,
    hasDrawn: bool,
    hasPlayedAction: bool,
    isGameOver: bool,
    playedCardsLastTurn: int,
    message: Msg,
    hasUsedFirstStrategicShuffle: bool,
    awaitingStrategicShuffleConfirmation: bool,
    winner: Option<string>,
    queenChallenge: QueenChallenge,
    isMessageClickable: bool,
    nextPhase: Option<Phase>)

  /** The order in which the columns object enumerates its keys. */
  const ColumnSuits: seq<Suit> := [Hearts, Diamonds, Clubs, Spades, Special]

  const InitialColumns: map<Suit, Column> :=
    map[Hearts := EmptyColumn, Diamonds := EmptyColumn, Clubs := EmptyColumn, Spades := EmptyColumn]

  /** `state.columns[suit]`, reading an absent key as an empty column. */
  function ColumnOf(cols: map<Suit, Column>, s: Suit): Column
  {
    if s in cols then cols[s] else EmptyColumn
  }

  /** The column at `t` exists and its guarded slot holds a card with identifier `id`. */
  predicate SlotHolds(cols: map<Suit, Column>, t: Suit, id: CardId)
  {
    t in cols && cols[t].reserveSuit.Some? && cols[t].reserveSuit.value.id == id
  }

  /** `Object.values(columns).find(col => col.reserveSuit?.id === id)`, as the key of the column found. */
  function SlotHolder(cols: map<Suit, Column>, id: CardId): (r: Option<Suit>)
    ensures r.Some? ==> SlotHolds(cols, r.value, id)
    ensures r.None? <==> forall t :: !SlotHolds(cols, t, id)
  {
    AllSuitsListed();
    SlotHolderIn(cols, ColumnSuits, id)
  }

  lemma AllSuitsListed()
    ensures forall t: Suit :: t in ColumnSuits
  {
    forall t: Suit ensures t in ColumnSuits {
      match t
      case Hearts => assert ColumnSuits[0] == t;
      case Diamonds => assert ColumnSuits[1] == t;
      case Clubs => assert ColumnSuits[2] == t;
      case Spades => assert ColumnSuits[3] == t;
      case Special => assert ColumnSuits[4] == t;
    }
  }

  /** The first suit of `suits` whose column's slot holds `id`. */
  function SlotHolderIn(cols: map<Suit, Column>, suits: seq<Suit>, id: CardId): (r: Option<Suit>)
    ensures r.Some? ==> r.value in suits && SlotHolds(cols, r.value, id)
    ensures r.None? <==> forall t :: t in suits ==> !SlotHolds(cols, t, id)
    ensures r.Some? ==> exists i :: 0 <= i < |suits| && suits[i] == r.value
                           && forall k :: 0 <= k < i ==> !SlotHolds(cols, suits[k], id)
  {
    if |suits| == 0 then None
    else if SlotHolds(cols, suits[0], id) then Some(suits[0])
    else
      var r := SlotHolderIn(cols, suits[1..], id);
      assert forall t :: t in suits ==> t == suits[0] || t in suits[1..];
      if r.Some? then
        var i :| 0 <= i < |suits[1..]| && suits[1..][i] == r.value
                 && forall k :: 0 <= k < i ==> !SlotHolds(cols, suits[1..][k], id);
        assert suits[i + 1] == r.value;
        assert forall k :: 0 <= k < i + 1 ==> !SlotHolds(cols, suits[k], id);
        r
      else r
  }

  function OptMs(o: Option<Card>): multiset<Card>
  {
    if o.Some? then multiset{o.value} else multiset{}
  }

  /** Every card a column holds: its sequence, its guarded slot and its face cards. */
  function ColumnMs(c: Column): multiset<Card>
  {
    multiset(c.cards) + OptMs(c.reserveSuit) + OptMs(c.faceJack) + OptMs(c.faceKing)
  }

  function PartMs(cols: map<Suit, Column>, s: Suit): multiset<Card>
  {
    if s in cols then ColumnMs(cols[s]) else multiset{}
  }

  /** Every card on the board. */
  function BoardMs(cols: map<Suit, Column>): multiset<Card>
  {
    PartMs(cols, Hearts) + PartMs(cols, Diamonds) + PartMs(cols, Clubs)
      + PartMs(cols, Spades) + PartMs(cols, Special)
  }

  /** Replacing one column changes the board by exactly that column's cards. */
  lemma BoardUpdate(cols: map<Suit, Column>, s: Suit, col: Column)
    ensures BoardMs(cols[s := col]) + PartMs(cols, s) == BoardMs(cols) + ColumnMs(col)
  {
    match s
    case Hearts => BoardUpdateHearts(cols, col);
    case Diamonds => BoardUpdateDiamonds(cols, col);
    case Clubs => BoardUpdateClubs(cols, col);
    case Spades => BoardUpdateSpades(cols, col);
    case Special => BoardUpdateSpecial(cols, col);
  }

  lemma BoardUpdateHearts(cols: map<Suit, Column>, col: Column)
    ensures BoardMs(cols[Hearts := col]) + PartMs(cols, Hearts) == BoardMs(cols) + ColumnMs(col)
  {
    var h, d, c, sp, sx := PartMs(cols, Hearts), PartMs(cols, Diamonds), PartMs(cols, Clubs), PartMs(cols, Spades), PartMs(cols, Special);
    var n := ColumnMs(col);
    assert BoardMs(cols) == h + d + c + sp + sx;
    assert BoardMs(cols[Hearts := col]) == n + d + c + sp + sx;
    SumSwap(n, d + c + sp + sx, h, n);
  }

  lemma BoardUpdateDiamonds(cols: map<Suit, Column>, col: Column)
    ensures BoardMs(cols[Diamonds := col]) + PartMs(cols, Diamonds) == BoardMs(cols) + ColumnMs(col)
  {
    var h, d, c, sp, sx := PartMs(cols, Hearts), PartMs(cols, Diamonds), PartMs(cols, Clubs), PartMs(cols, Spades), PartMs(cols, Special);
    var n := ColumnMs(col);
    assert BoardMs(cols) == h + d + c + sp + sx;
    assert BoardMs(cols[Diamonds := col]) == h + n + c + sp + sx;
    SumSwap(n, h + c + sp + sx, d, n);
  }

  lemma BoardUpdateClubs(cols: map<Suit, Column>, col: Column)
    ensures BoardMs(cols[Clubs := col]) + PartMs(cols, Clubs) == BoardMs(cols) + ColumnMs(col)
  {
    var h, d, c, sp, sx := PartMs(cols, Hearts), PartMs(cols, Diamonds), PartMs(cols, Clubs), PartMs(cols, Spades), PartMs(cols, Special);
    var n := ColumnMs(col);
    assert BoardMs(cols) == h + d + c + sp + sx;
    assert BoardMs(cols[Clubs := col]) == h + d + n + sp + sx;
    SumSwap(n, h + d + sp + sx, c, n);
  }

  lemma BoardUpdateSpades(cols: map<Suit, Column>, col: Column)
    ensures BoardMs(cols[Spades := col]) + PartMs(cols, Spades) == BoardMs(cols) + ColumnMs(col)
  {
    var h, d, c, sp, sx := PartMs(cols, Hearts), PartMs(cols, Diamonds), PartMs(cols, Clubs), PartMs(cols, Spades), PartMs(cols, Special);
    var n := ColumnMs(col);
    assert BoardMs(cols) == h + d + c + sp + sx;
    assert BoardMs(cols[Spades := col]) == h + d + c + n + sx;
    SumSwap(n, h + d + c + sx, sp, n);
  }

  lemma BoardUpdateSpecial(cols: map<Suit, Column>, col: Column)
    ensures BoardMs(cols[Special := col]) + PartMs(cols, Special) == BoardMs(cols) + ColumnMs(col)
  {
    var h, d, c, sp, sx := PartMs(cols, Hearts), PartMs(cols, Diamonds), PartMs(cols, Clubs), PartMs(cols, Spades), PartMs(cols, Special);
    var n := ColumnMs(col);
    assert BoardMs(cols) == h + d + c + sp + sx;
    assert BoardMs(cols[Special := col]) == h + d + c + sp + n;
    SumSwap(n, h + d + c + sp, sx, n);
  }

  lemma SumSwap(x: multiset<Card>, rest: multiset<Card>, o: multiset<Card>, n: multiset<Card>)
    requires x == n
    ensures x + rest + o == o + rest + n
  {
  }

  /** The player's hand and reserve together. */
  function Held(s: State): seq<Card>
  {
    s.currentPlayer.hand + s.currentPlayer.reserve
  }

  /**
   * Every card of the game, wherever it lies: draw pile, hand, reserve,
   * discard pile and board. Conservation means this multiset never changes.
   */
  function AllCards(s: State): multiset<Card>
  {
    LooseMs(s) + BoardMs(s.columns)
  }

  /** The cards off the board: draw pile, hand, reserve and discard pile. */
  function LooseMs(s: State): multiset<Card>
  {
    multiset(s.deck) + multiset(s.currentPlayer.hand) + multiset(s.currentPlayer.reserve)
      + multiset(s.currentPlayer.discardPile)
  }

  /** Changing only the player's zones, without changing their combined contents, conserves every card. */
  lemma PlayerConserves(s: State, q: Player)
    requires multiset(q.hand) + multiset(q.reserve) + multiset(q.discardPile)
          == multiset(s.currentPlayer.hand) + multiset(s.currentPlayer.reserve) + multiset(s.currentPlayer.discardPile)
    ensures AllCards(s.(currentPlayer := q)) == AllCards(s)
  {
    var p := s.currentPlayer;
    var D, B := multiset(s.deck), BoardMs(s.columns);
    calc {
      AllCards(s.(currentPlayer := q));
      D + (multiset(q.hand) + multiset(q.reserve) + multiset(q.discardPile)) + B;
      D + (multiset(p.hand) + multiset(p.reserve) + multiset(p.discardPile)) + B;
      AllCards(s);
    }
  }

  /** The player's hand, reserve and discard pile together. */
  function ZonesMs(p: Player): multiset<Card>
  {
    multiset(p.hand) + multiset(p.reserve) + multiset(p.discardPile)
  }

  /**
   * Rewriting the player's zones and one column conserves every card when the
   * cards the zones gain are exactly the cards the column gives up, and back.
   */
  lemma MoveConserves(s: State, q: Player, t: Suit, col: Column)
    requires ZonesMs(q) + ColumnMs(col) == ZonesMs(s.currentPlayer) + PartMs(s.columns, t)
    ensures AllCards(s.(currentPlayer := q, columns := s.columns[t := col])) == AllCards(s)
  {
    var r := s.(currentPlayer := q, columns := s.columns[t := col]);
    var D, Q, P := multiset(s.deck), ZonesMs(q), ZonesMs(s.currentPlayer);
    var B, B', O, C := BoardMs(s.columns), BoardMs(r.columns), PartMs(s.columns, t), ColumnMs(col);
    BoardUpdate(s.columns, t, col);
    assert B' + O == B + C;
    assert LooseMs(r) == D + Q;
    assert LooseMs(s) == D + P;
    Cancel(Q, B', P, B, O, C);
    calc {
      AllCards(r);
      D + Q + B';
      D + (Q + B');
      D + (P + B);
      D + P + B;
      AllCards(s);
    }
  }

  /** A column whose guarded slot now holds `x` gained `x` and lost the previous slot card. */
  lemma SlotSwapMs(col: Column, n: Column, x: Card)
    requires n.cards == col.cards && n.faceJack == col.faceJack && n.faceKing == col.faceKing
    requires n.reserveSuit == Some(x)
    ensures ColumnMs(n) + OptMs(col.reserveSuit) == ColumnMs(col) + multiset{x}
  {
    SwapPart(multiset(col.cards), OptMs(col.reserveSuit), multiset{x}, OptMs(col.faceJack), OptMs(col.faceKing));
  }

  lemma SwapPart(c: multiset<Card>, o: multiset<Card>, x: multiset<Card>, j: multiset<Card>, k: multiset<Card>)
    ensures c + x + j + k + o == c + o + j + k + x
  {
    forall y ensures (c + x + j + k + o)[y] == (c + o + j + k + x)[y] {
    }
  }

  /** What the zones give the column and what the column gives back balance out. */
  lemma Balance(zq: multiset<Card>, zp: multiset<Card>, cq: multiset<Card>, cp: multiset<Card>, a: multiset<Card>, b: multiset<Card>)
    requires zq + a == zp + b && cq + b == cp + a
    ensures zq + cq == zp + cp
  {
    forall x ensures (zq + cq)[x] == (zp + cp)[x] {
      assert (zq + a)[x] == (zp + b)[x];
      assert (cq + b)[x] == (cp + a)[x];
    }
  }

  lemma Cancel(q: multiset<Card>, b': multiset<Card>, p: multiset<Card>, b: multiset<Card>, o: multiset<Card>, c: multiset<Card>)
    requires q + c == p + o && b' + o == b + c
    ensures q + b' == p + b
  {
    forall x ensures (q + b')[x] == (p + b)[x] {
      assert (q + c)[x] == (p + o)[x];
      assert (b' + o)[x] == (b + c)[x];
    }
  }

  /** The phase a turn hands over to, from the number of cards held. */
  function PhaseForCount(total: int): Phase
  {
    if total == 7 then Discard else Draw
  }

  function HeldCount(s: State): int
  {
    |s.currentPlayer.hand| + |s.currentPlayer.reserve|
  }

  /** Hand and reserve are within their capacities. */
  predicate WithinCaps(s: State)
  {
    |s.currentPlayer.hand| <= MaxHand && |s.currentPlayer.reserve| <= MaxReserve
  }

  /** The column at `t` is the same before and after. */
  predicate SameColumn(a: map<Suit, Column>, b: map<Suit, Column>, t: Suit)
  {
    (t in a <==> t in b) && (t in a ==> a[t] == b[t])
  }
}
