/**
 * The revolution: every column loses its low cards (Ace to ten) to the
 * discard pile, including a low card in its slot, and all column flags are
 * reset. Which values count as low is a parameter, so that the comparison
 * the handler writes and the one it evidently means can be told apart.
 */
module Revolution {

  import opened Wrappers
  import opened Cards
  import opened Game

  /** The values the deck is built from, in deck order; the Joker's value is not among them. */
  const DeckValues: seq<Value> :=
    [Ace, Pip(2), Pip(3), Pip(4), Pip(5), Pip(6), Pip(7), Pip(8), Pip(9), Pip(10), Jack, Queen, King]

  /** JavaScript's `<` on strings: lexicographic order of the characters. */
  predicate JsLess(a: string, b: string)
    decreases |a|
  {
    if |a| == 0 then |b| > 0
    else if |b| == 0 then false
    else if a[0] != b[0] then a[0] < b[0]
    else JsLess(a[1..], b[1..])
  }

  /** JavaScript's `<=` on strings. */
  predicate JsLe(a: string, b: string)
  {
    a == b || JsLess(a, b)
  }

  /** The handler's selection test on a value text: `value === 'A' || (value >= '2' && value <= '10')`. */
  predicate AsWrittenTest(t: string)
  {
    t == "A" || (JsLe("2", t) && JsLe(t, "10"))
  }

  /** The values the handler's test, as written, selects from the deck's values. */
  predicate AsWrittenLow(v: Value)
  {
    v in DeckValues && AsWrittenTest(ValueText(v))
  }

  /** The values the handler evidently means: the Ace and the ranks two to ten. */
  predicate IntendedLow(v: Value)
  {
    v == Ace || v.Pip?
  }

  /** The cards of `z` whose value is not low, in order. */
  function Kept(z: seq<Card>, low: Value -> bool): (r: seq<Card>)
    ensures forall c :: c in r <==> c in z && !low(c.value)
    ensures |r| <= |z|
  {
    if |z| == 0 then []
    else if low(z[0].value) then Kept(z[1..], low)
    else [z[0]] + Kept(z[1..], low)
  }

  /** The cards of `z` whose value is low, in order. */
  function Dropped(z: seq<Card>, low: Value -> bool): (r: seq<Card>)
    ensures forall c :: c in r <==> c in z && low(c.value)
  {
    if |z| == 0 then []
    else if low(z[0].value) then [z[0]] + Dropped(z[1..], low)
    else Dropped(z[1..], low)
  }

  /** Splitting a zone into kept and dropped cards loses no card. */
  lemma {:induction false} KeptAndDropped(z: seq<Card>, low: Value -> bool)
    ensures multiset(Kept(z, low)) + multiset(Dropped(z, low)) == multiset(z)
  {
    if |z| > 0 {
      KeptAndDropped(z[1..], low);
      assert z == [z[0]] + z[1..];
    }
  }

  /** The slot's card when it is low, as a list of zero or one cards. */
  function SlotDropped(col: Column, low: Value -> bool): seq<Card>
  {
    if col.reserveSuit.Some? && low(col.reserveSuit.value.value) then [col.reserveSuit.value] else []
  }

  /**
   * A column after the revolution: its cards without the low ones, its slot
   * emptied when it held a low card, every flag reset, no activator kind,
   * and no face cards (the rebuilt column does not carry them over).
   */
  function Revolved(col: Column, low: Value -> bool): Column
  {
    Column(Kept(col.cards, low),
           if col.reserveSuit.Some? && low(col.reserveSuit.value.value) then None else col.reserveSuit,
           None, false, false, false, None, None)
  }

  /** What one column sends to the discard pile: its low cards in order, then a low slot card. */
  function ColumnDiscards(col: Column, low: Value -> bool): seq<Card>
  {
    Dropped(col.cards, low) + SlotDropped(col, low)
  }

  function PartDiscards(cols: map<Suit, Column>, t: Suit, low: Value -> bool): seq<Card>
  {
    if t in cols then ColumnDiscards(cols[t], low) else []
  }

  /** Everything the board sends to the discard pile, column by column in key order. */
  function RevolutionDiscards(cols: map<Suit, Column>, low: Value -> bool): seq<Card>
  {
    PartDiscards(cols, Hearts, low) + PartDiscards(cols, Diamonds, low) + PartDiscards(cols, Clubs, low)
      + PartDiscards(cols, Spades, low) + PartDiscards(cols, Special, low)
  }

  /** The face cards attached to a column. */
  function FacesMs(col: Column): multiset<Card>
  {
    OptMs(col.faceJack) + OptMs(col.faceKing)
  }

  function PartFaces(cols: map<Suit, Column>, t: Suit): multiset<Card>
  {
    if t in cols then FacesMs(cols[t]) else multiset{}
  }

  /** The face cards attached anywhere on the board. */
  function BoardFaces(cols: map<Suit, Column>): multiset<Card>
  {
    PartFaces(cols, Hearts) + PartFaces(cols, Diamonds) + PartFaces(cols, Clubs)
      + PartFaces(cols, Spades) + PartFaces(cols, Special)
  }

  /** The board rebuilt column by column, on the same keys. */
  function RevolvedBoard(cols: map<Suit, Column>, low: Value -> bool): (n: map<Suit, Column>)
    ensures n.Keys == cols.Keys
    ensures forall t :: t in n ==> n[t] == Revolved(cols[t], low)
  {
    map t | t in cols :: Revolved(cols[t], low)
  }

  /**
   * The revolution with `low` as the selection test. Every column is rebuilt,
   * the discarded cards are appended to the discard pile, and the turn moves
   * to the discard phase when seven or more cards are held and to the draw
   * phase otherwise. There is no guard on the phase or on the action.
   */
  function RevolutionWith(s: State, low: Value -> bool): (r: State)
    ensures r.columns == RevolvedBoard(s.columns, low)
    ensures r.currentPlayer.discardPile == s.currentPlayer.discardPile + RevolutionDiscards(s.columns, low)
    ensures r.currentPlayer.hand == s.currentPlayer.hand && r.currentPlayer.reserve == s.currentPlayer.reserve
    ensures r.phase == (if HeldCount(s) >= 7 then Discard else Draw) && r.hasPlayedAction
    ensures r.deck == s.deck && r.selectedCards == s.selectedCards && r.turn == s.turn
  {
    var p := s.currentPlayer;
    s.(columns := RevolvedBoard(s.columns, low),
       currentPlayer := p.(discardPile := p.discardPile + RevolutionDiscards(s.columns, low)),
       phase := if HeldCount(s) >= 7 then Discard else Draw,
       message := RevolutionDone, hasPlayedAction := true)
  }

  /** The revolution the handler evidently means: Aces and ranks two to ten leave the board. */
  function HandleRevolution(s: State): State
  {
    RevolutionWith(s, IntendedLow)
  }

  /**
   * After the revolution no column holds an Ace or a numbered card, in its
   * cards or in its slot; every non-low card it held stays, in order; and
   * every column is unlocked, unblocked, not lucky and without face cards.
   */
  lemma RevolutionClearsLowCards(s: State)
    ensures var r := HandleRevolution(s);
            forall t :: t in r.columns ==>
              && (forall c :: c in r.columns[t].cards ==> !IntendedLow(c.value))
              && (r.columns[t].reserveSuit.Some? ==> !IntendedLow(r.columns[t].reserveSuit.value.value))
              && r.columns[t].cards == Kept(s.columns[t].cards, IntendedLow)
              && (s.columns[t].reserveSuit.Some? && !IntendedLow(s.columns[t].reserveSuit.value.value)
                  ==> r.columns[t].reserveSuit == s.columns[t].reserveSuit)
              && !r.columns[t].isLocked && !r.columns[t].isReserveBlocked && !r.columns[t].hasLuckyCard
              && r.columns[t].faceJack.None? && r.columns[t].faceKing.None?
  {
  }

  /** A column splits into its rebuilt self, its discards and its face cards. */
  lemma ColumnSplit(col: Column, low: Value -> bool)
    ensures ColumnMs(col) == ColumnMs(Revolved(col, low)) + multiset(ColumnDiscards(col, low)) + FacesMs(col)
  {
    KeptAndDropped(col.cards, low);
    var K, D := multiset(Kept(col.cards, low)), multiset(Dropped(col.cards, low));
    var S, J, Q := OptMs(col.reserveSuit), OptMs(col.faceJack), OptMs(col.faceKing);
    var S' := OptMs(Revolved(col, low).reserveSuit);
    var L := multiset(SlotDropped(col, low));
    assert S' + L == S;
    assert ColumnMs(Revolved(col, low)) == K + S';
    assert multiset(ColumnDiscards(col, low)) == D + L;
    assert ColumnMs(col) == (K + D) + S + J + Q;
    forall x ensures ColumnMs(col)[x] == (K + S' + (D + L) + (J + Q))[x] { }
  }

  lemma PartSplit(cols: map<Suit, Column>, t: Suit, low: Value -> bool)
    ensures PartMs(cols, t) == PartMs(RevolvedBoard(cols, low), t) + multiset(PartDiscards(cols, t, low)) + PartFaces(cols, t)
  {
    if t in cols {
      ColumnSplit(cols[t], low);
    }
  }

  /** Five pointwise splits add up to a split of the sums. */
  lemma SumOfSplits(a: seq<multiset<Card>>, b: seq<multiset<Card>>, c: seq<multiset<Card>>, d: seq<multiset<Card>>)
    requires |a| == |b| == |c| == |d| == 5
    requires forall i :: 0 <= i < 5 ==> a[i] == b[i] + c[i] + d[i]
    ensures a[0] + a[1] + a[2] + a[3] + a[4]
            == (b[0] + b[1] + b[2] + b[3] + b[4]) + (c[0] + c[1] + c[2] + c[3] + c[4]) + (d[0] + d[1] + d[2] + d[3] + d[4])
  {
    forall x ensures (a[0] + a[1] + a[2] + a[3] + a[4])[x]
            == ((b[0] + b[1] + b[2] + b[3] + b[4]) + (c[0] + c[1] + c[2] + c[3] + c[4]) + (d[0] + d[1] + d[2] + d[3] + d[4]))[x]
    {
      assert a[0][x] == b[0][x] + c[0][x] + d[0][x];
      assert a[1][x] == b[1][x] + c[1][x] + d[1][x];
      assert a[2][x] == b[2][x] + c[2][x] + d[2][x];
      assert a[3][x] == b[3][x] + c[3][x] + d[3][x];
      assert a[4][x] == b[4][x] + c[4][x] + d[4][x];
    }
  }

  /** The board splits into the rebuilt board, the revolution's discards and the face cards. */
  lemma BoardSplit(cols: map<Suit, Column>, low: Value -> bool)
    ensures BoardMs(cols) == BoardMs(RevolvedBoard(cols, low)) + multiset(RevolutionDiscards(cols, low)) + BoardFaces(cols)
  {
    var n := RevolvedBoard(cols, low);
    var ts := ColumnSuits;
    var a := seq(5, i requires 0 <= i < 5 => PartMs(cols, ts[i]));
    var b := seq(5, i requires 0 <= i < 5 => PartMs(n, ts[i]));
    var c := seq(5, i requires 0 <= i < 5 => multiset(PartDiscards(cols, ts[i], low)));
    var d := seq(5, i requires 0 <= i < 5 => PartFaces(cols, ts[i]));
    forall i | 0 <= i < 5 ensures a[i] == b[i] + c[i] + d[i] {
      PartSplit(cols, ts[i], low);
    }
    SumOfSplits(a, b, c, d);
    assert multiset(RevolutionDiscards(cols, low)) == c[0] + c[1] + c[2] + c[3] + c[4];
  }

  /** Off the board, the revolution only adds its discards. */
  lemma RevolutionLoose(s: State, low: Value -> bool)
    ensures LooseMs(RevolutionWith(s, low)) == LooseMs(s) + multiset(RevolutionDiscards(s.columns, low))
  {
  }

  lemma Regroup(l: multiset<Card>, d: multiset<Card>, n: multiset<Card>, f: multiset<Card>)
    ensures (l + d) + n + f == l + (n + d + f)
  {
    forall x ensures ((l + d) + n + f)[x] == (l + (n + d + f))[x] { }
  }

  /**
   * The revolution loses exactly the face cards on the board: every other
   * card is still in play, the low ones now in the discard pile.
   */
  lemma RevolutionConserves(s: State, low: Value -> bool)
    ensures AllCards(RevolutionWith(s, low)) + BoardFaces(s.columns) == AllCards(s)
  {
    var r := RevolutionWith(s, low);
    var n := RevolvedBoard(s.columns, low);
    assert r.columns == n;
    BoardSplit(s.columns, low);
    RevolutionLoose(s, low);
    Regroup(LooseMs(s), multiset(RevolutionDiscards(s.columns, low)), BoardMs(n), BoardFaces(s.columns));
  }

  /** A second revolution finds nothing more to discard and leaves the board as the first left it. */
  lemma {:induction false} KeptTwice(z: seq<Card>, low: Value -> bool)
    ensures Kept(Kept(z, low), low) == Kept(z, low)
    ensures Dropped(Kept(z, low), low) == []
  {
    if |z| > 0 {
      KeptTwice(z[1..], low);
      if !low(z[0].value) {
        assert ([z[0]] + Kept(z[1..], low))[1..] == Kept(z[1..], low);
      }
    }
  }

  lemma RevolvedTwice(col: Column, low: Value -> bool)
    ensures Revolved(Revolved(col, low), low) == Revolved(col, low)
    ensures ColumnDiscards(Revolved(col, low), low) == []
  {
    KeptTwice(col.cards, low);
  }

  /** Repeating the revolution keeps the board and the discard pile the first one produced. */
  lemma RevolutionTwice(s: State, low: Value -> bool)
    ensures var r := RevolutionWith(s, low);
            var r2 := RevolutionWith(r, low);
            r2.columns == r.columns && r2.currentPlayer.discardPile == r.currentPlayer.discardPile
  {
    var r := RevolutionWith(s, low);
    var r2 := RevolutionWith(r, low);
    forall t | t in r.columns ensures Revolved(r.columns[t], low) == r.columns[t] && ColumnDiscards(r.columns[t], low) == [] {
      RevolvedTwice(s.columns[t], low);
    }
    assert RevolutionDiscards(r.columns, low) == [];
  }

  /** As written, the range test is lexicographic, and among the deck's values it selects the Ace only. */
  lemma AsWrittenLowIsAceOnly(v: Value)
    ensures AsWrittenLow(v) <==> v == Ace
  {
    if v in DeckValues && v != Ace {
      var t := ValueText(v);
      assert JsLess("10", "2");
      match v
      case Pip(n) =>
        if n == 10 {
          assert !JsLe("2", t);
        } else {
          assert t == [('0' as int + n) as char];
          assert !JsLess(t, "10");
        }
      case Jack => assert !JsLess(t, "10");
      case Queen => assert !JsLess(t, "10");
      case King => assert !JsLess(t, "10");
    }
  }

  /** The five of hearts in a column survives the revolution as written, though it is a rank from two to ten. */
  lemma AsWrittenKeepsFive()
    ensures IntendedLow(Pip(5)) && !AsWrittenLow(Pip(5))
    ensures var five := Card("5-hearts", Hearts, Pip(5), NumberCard, Red);
            var col := EmptyColumn.(cards := [five]);
            Revolved(col, AsWrittenLow).cards == [five] && Revolved(col, IntendedLow).cards == []
  {
    AsWrittenLowIsAceOnly(Pip(5));
  }

  /**
   * As written, the handler reads `VALUES`, which the store module neither
   * declares nor imports: the lookup throws inside the update, so the store
   * keeps its state.
   */
  function RevolutionAsWritten(s: State): State
  {
    s
  }

  /** A board with an Ace in a column: the handler as written leaves it there, the intended revolution discards it. */
  lemma AsWrittenRevolutionIsInert()
    ensures var ace := Card("A-hearts", Hearts, Ace, NumberCard, Red);
            var s := State(Player(10, 10, [], [], [], false), [], Action, 1, [],
                           InitialColumns[Hearts := EmptyColumn.(cards := [ace])],
                           false, false, false, false, 0, NoMessage, false, false, None,
                           QueenChallenge(false, None), false, None);
            && RevolutionAsWritten(s).columns[Hearts].cards == [ace]
            && HandleRevolution(s).columns[Hearts].cards == []
            && HandleRevolution(s).currentPlayer.discardPile == [ace]
  {
    var ace := Card("A-hearts", Hearts, Ace, NumberCard, Red);
    var s := State(Player(10, 10, [], [], [], false), [], Action, 1, [],
                   InitialColumns[Hearts := EmptyColumn.(cards := [ace])],
                   false, false, false, false, 0, NoMessage, false, false, None,
                   QueenChallenge(false, None), false, None);
    assert Kept([ace], IntendedLow) == [];
    assert RevolutionDiscards(s.columns, IntendedLow) == [ace];
  }
}
