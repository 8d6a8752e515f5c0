/**
 * The Joker's own action (heal or attack), alone or together with a Queen,
 * and the resolution of the Queen's challenge.
 */
module Specials {

  import opened Wrappers
  import opened Cards
  import opened Zones
  import opened Game
  import opened Placement

  datatype JokerMove = Heal | Attack

  /** The Joker's action is open: a Joker, in the action phase, before the action is played. */
  predicate CanPlayJoker(s: State, joker: Card)
  {
    IsJoker(joker) && s.phase == Action && !s.hasPlayedAction
  }

  /** The player with `joker` taken out of hand and reserve and appended to the discard pile. */
  function DiscardJoker(p: Player, joker: Card): Player
  {
    p.(hand := WithoutIds(p.hand, {joker.id}), reserve := WithoutIds(p.reserve, {joker.id}),
       discardPile := p.discardPile + [joker])
  }

  /**
   * Play a Joker. With a Queen and a Joker selected, healing discards both and
   * raises health and maximum health to the old maximum plus four, while
   * attacking only opens the Queen's challenge. Otherwise the Joker goes to
   * the discard pile; healing alone raises health by two and sets the maximum
   * to the new health.
   */
  function HandleJokerAction(s: State, joker: Card, move: JokerMove): (r: State)
    ensures !CanPlayJoker(s, joker) ==> r == s
    ensures r.deck == s.deck && r.columns == s.columns && r.turn == s.turn
  {
    if !CanPlayJoker(s, joker) then s
    else
      var sel := s.selectedCards;
      var queen, j := Find(sel, IsQueen), Find(sel, IsJoker);
      if queen.Some? && j.Some? then
        match move
        case Heal => QueenJokerHeal(s, queen.value, j.value)
        case Attack => QueenJokerAttack(s, queen.value)
      else JokerAlone(s, joker, move)
  }

  /**
   * Healing with a Queen and a Joker: both leave hand and reserve and go to
   * the discard pile, Queen first, and health and maximum health become the
   * old maximum plus four.
   */
  function QueenJokerHeal(s: State, queen: Card, j: Card): (r: State)
    ensures r.currentPlayer.health == s.currentPlayer.maxHealth + 4
    ensures r.currentPlayer.maxHealth == s.currentPlayer.maxHealth + 4
    ensures ZonesMs(r.currentPlayer) == ZonesMs(WithoutSelected(s.currentPlayer, s.selectedCards)) + multiset{queen, j}
    ensures r.currentPlayer.discardPile == s.currentPlayer.discardPile + [queen, j]
    ensures r.hasPlayedAction && r.selectedCards == [] && r.playedCardsLastTurn == 2 && r.phase == Action
    ensures r.deck == s.deck && r.columns == s.columns && r.turn == s.turn
  {
    var healed := s.currentPlayer.maxHealth + 4;
    var w := WithoutSelected(s.currentPlayer, s.selectedCards);
    s.(currentPlayer := w.(health := healed, maxHealth := healed, discardPile := w.discardPile + [queen, j]),
       selectedCards := [], hasPlayedAction := true, playedCardsLastTurn := 2,
       message := QueenHeal, phase := Action)
  }

  /** Attacking with a Queen and a Joker only opens the Queen's challenge. */
  function QueenJokerAttack(s: State, queen: Card): (r: State)
    ensures r.queenChallenge == QueenChallenge(true, Some(queen)) && r.isMessageClickable
    ensures r.currentPlayer == s.currentPlayer && r.selectedCards == s.selectedCards
    ensures r.hasPlayedAction == s.hasPlayedAction && r.phase == s.phase
    ensures r.deck == s.deck && r.columns == s.columns && r.turn == s.turn
  {
    s.(queenChallenge := QueenChallenge(true, Some(queen)), message := QueenChallengeOpened,
       isMessageClickable := true)
  }

  /** With a Queen and a Joker selected, the searches find exactly them. */
  lemma QueenJokerFinds(s: State, queen: Card, j: Card)
    requires SelectedPair(s, queen, j) && IsQueen(queen) && IsJoker(j) && Regular(queen) && Regular(j)
    ensures Find(s.selectedCards, IsQueen) == Some(queen) && Find(s.selectedCards, IsJoker) == Some(j)
  {
    FindSelected(s, queen, j, IsQueen);
    FindSelected(s, queen, j, IsJoker);
  }

  /**
   * A Joker played without a Queen: it goes to the discard pile and the
   * action is consumed; healing raises health by two and sets the maximum
   * health to the new health.
   */
  function JokerAlone(s: State, joker: Card, move: JokerMove): (r: State)
    ensures r.currentPlayer.discardPile == s.currentPlayer.discardPile + [joker]
    ensures forall c :: c in r.currentPlayer.hand <==> c in s.currentPlayer.hand && c.id != joker.id
    ensures forall c :: c in r.currentPlayer.reserve <==> c in s.currentPlayer.reserve && c.id != joker.id
    ensures r.hasPlayedAction && r.selectedCards == [] && r.playedCardsLastTurn == 1 && r.phase == Action
    ensures move == Heal ==> r.currentPlayer.health == s.currentPlayer.health + 2
                             && r.currentPlayer.maxHealth == r.currentPlayer.health
    ensures move == Attack ==> r.currentPlayer.health == s.currentPlayer.health
                               && r.currentPlayer.maxHealth == s.currentPlayer.maxHealth
    ensures r.deck == s.deck && r.columns == s.columns && r.turn == s.turn
  {
    var p := DiscardJoker(s.currentPlayer, joker);
    match move
    case Heal =>
      var healed := s.currentPlayer.health + 2;
      s.(currentPlayer := p.(health := healed, maxHealth := healed),
         hasPlayedAction := true, selectedCards := [], playedCardsLastTurn := 1,
         message := JokerHeal, phase := Action)
    case Attack =>
      s.(currentPlayer := p, hasPlayedAction := true, selectedCards := [], playedCardsLastTurn := 1,
         message := JokerAttack, phase := Action)
  }

  /** No Queen-and-Joker pair is selected. */
  predicate Solo(s: State)
  {
    Find(s.selectedCards, IsQueen).None? || Find(s.selectedCards, IsJoker).None?
  }

  /** Without a selected Queen-and-Joker pair, an open Joker action is the Joker played alone. */
  lemma SoloDispatch(s: State, joker: Card, move: JokerMove)
    requires CanPlayJoker(s, joker) && Solo(s)
    ensures HandleJokerAction(s, joker, move) == JokerAlone(s, joker, move)
  {
  }

  /** Discarding a held Joker moves it from hand or reserve to the discard pile. */
  lemma DiscardJokerKeepsZones(p: Player, joker: Card)
    requires joker in p.hand + p.reserve && DistinctIds(p.hand + p.reserve)
    ensures ZonesMs(DiscardJoker(p, joker)) == ZonesMs(p)
  {
    RemoveOneFromZones(p.hand, p.reserve, joker);
    var q := DiscardJoker(p, joker);
    var H', R' := multiset(q.hand), multiset(q.reserve);
    var H, R, P, J := multiset(p.hand), multiset(p.reserve), multiset(p.discardPile), multiset{joker};
    assert H' + R' + J == H + R;
    assert ZonesMs(q) == H' + R' + (P + J);
    forall x ensures ZonesMs(q)[x] == ZonesMs(p)[x] {
      assert (H' + R' + J)[x] == (H + R)[x];
    }
    assert ZonesMs(q) == ZonesMs(p);
  }

  /** A held Joker played alone moves from hand or reserve to the discard pile, losing no card. */
  lemma JokerSoloConserves(s: State, joker: Card, move: JokerMove)
    requires CanPlayJoker(s, joker) && Solo(s)
    requires joker in Held(s) && DistinctIds(Held(s))
    ensures AllCards(HandleJokerAction(s, joker, move)) == AllCards(s)
  {
    SoloDispatch(s, joker, move);
    DiscardJokerKeepsZones(s.currentPlayer, joker);
    var r := JokerAlone(s, joker, move);
    PlayerConserves(s, r.currentPlayer);
  }

  /**
   * With a Queen and a Joker selected: healing discards both (Queen first),
   * takes them out of hand and reserve and sets health and maximum health to
   * the old maximum plus four; attacking opens the challenge with that Queen
   * and leaves the action unplayed and the cards where they are.
   */
  lemma JokerWithQueen(s: State, joker: Card, move: JokerMove, queen: Card, j: Card)
    requires CanPlayJoker(s, joker) && SelectedPair(s, queen, j) && IsQueen(queen) && IsJoker(j)
    requires Regular(queen) && Regular(j)
    ensures var r := HandleJokerAction(s, joker, move);
            move == Heal ==>
              && r.currentPlayer.health == s.currentPlayer.maxHealth + 4
              && r.currentPlayer.maxHealth == s.currentPlayer.maxHealth + 4
              && r.currentPlayer.discardPile == s.currentPlayer.discardPile + [queen, j]
              && r.hasPlayedAction && r.selectedCards == [] && r.playedCardsLastTurn == 2
    ensures var r := HandleJokerAction(s, joker, move);
            move == Attack ==>
              && r.queenChallenge == QueenChallenge(true, Some(queen))
              && !r.hasPlayedAction && r.currentPlayer == s.currentPlayer
              && r.selectedCards == s.selectedCards && r.isMessageClickable
  {
    QueenJokerFinds(s, queen, j);
    var r := HandleJokerAction(s, joker, move);
    if move == Heal {
      assert r == QueenJokerHeal(s, queen, j);
    } else {
      assert r == QueenJokerAttack(s, queen);
    }
  }

  /** Healing with a held Queen and Joker moves both to the discard pile, losing no card. */
  lemma QueenHealConserves(s: State, joker: Card, queen: Card, j: Card)
    requires CanPlayJoker(s, joker) && SelectedPair(s, queen, j) && IsQueen(queen) && IsJoker(j)
    requires Regular(queen) && Regular(j)
    requires queen in Held(s) && j in Held(s) && DistinctIds(Held(s))
    ensures AllCards(HandleJokerAction(s, joker, Heal)) == AllCards(s)
  {
    QueenJokerFinds(s, queen, j);
    var r := QueenJokerHeal(s, queen, j);
    assert HandleJokerAction(s, joker, Heal) == r;
    HeldPairDistinct(s, queen, j);
    PairLeavesPlayer(s, queen, j);
    PlayerConserves(s, r.currentPlayer);
  }

  /**
   * Resolve the Queen's challenge (no phase guard): with a Queen and a Joker
   * selected, both are discarded, the maximum health grows by five for a
   * correct answer and by one otherwise, health is set to the new maximum,
   * and the challenge closes.
   */
  function HandleQueenChallenge(s: State, isCorrect: bool): (r: State)
    ensures Find(s.selectedCards, IsQueen).None? || Find(s.selectedCards, IsJoker).None? ==> r == s
    ensures Find(s.selectedCards, IsQueen).Some? && Find(s.selectedCards, IsJoker).Some? ==>
              && r.currentPlayer.maxHealth == s.currentPlayer.maxHealth + (if isCorrect then 5 else 1)
              && r.currentPlayer.health == r.currentPlayer.maxHealth
              && r.queenChallenge == QueenChallenge(false, None)
              && r.hasPlayedAction && r.selectedCards == [] && r.playedCardsLastTurn == 2
              && r.currentPlayer.discardPile
                 == s.currentPlayer.discardPile + [Find(s.selectedCards, IsQueen).value, Find(s.selectedCards, IsJoker).value]
    ensures r.deck == s.deck && r.columns == s.columns && r.phase == s.phase && r.turn == s.turn
  {
    var sel := s.selectedCards;
    var queen, joker := Find(sel, IsQueen), Find(sel, IsJoker);
    if queen.None? || joker.None? then s
    else ChallengeAnswered(s, isCorrect, queen.value, joker.value)
  }

  /**
   * The challenge answered with `queen` and `joker` found in the selection:
   * both go to the discard pile and health is set to the raised maximum.
   */
  function ChallengeAnswered(s: State, isCorrect: bool, queen: Card, joker: Card): (r: State)
    ensures r.currentPlayer.maxHealth == s.currentPlayer.maxHealth + (if isCorrect then 5 else 1)
    ensures r.currentPlayer.health == r.currentPlayer.maxHealth
    ensures ZonesMs(r.currentPlayer) == ZonesMs(WithoutSelected(s.currentPlayer, s.selectedCards)) + multiset{queen, joker}
    ensures r.currentPlayer.discardPile == s.currentPlayer.discardPile + [queen, joker]
    ensures r.queenChallenge == QueenChallenge(false, None)
    ensures r.hasPlayedAction && r.selectedCards == [] && r.playedCardsLastTurn == 2
    ensures r.deck == s.deck && r.columns == s.columns && r.phase == s.phase && r.turn == s.turn
  {
    var healed := s.currentPlayer.maxHealth + (if isCorrect then 5 else 1);
    var w := WithoutSelected(s.currentPlayer, s.selectedCards);
    s.(currentPlayer := w.(health := healed, maxHealth := healed, discardPile := w.discardPile + [queen, joker]),
       selectedCards := [], queenChallenge := QueenChallenge(false, None),
       hasPlayedAction := true, playedCardsLastTurn := 2, message := QueenChallengeResult)
  }

  /**
   * Attacking with a Queen and a Joker and then answering the challenge:
   * the challenge opened by the attack is closed by the answer, and a correct
   * answer ends with four more health than a wrong one.
   */
  lemma AttackThenChallenge(s: State, joker: Card, queen: Card, j: Card)
    requires CanPlayJoker(s, joker) && SelectedPair(s, queen, j) && IsQueen(queen) && IsJoker(j)
    requires Regular(queen) && Regular(j)
    ensures HandleJokerAction(s, joker, Attack).queenChallenge.isActive
    ensures var good := HandleQueenChallenge(HandleJokerAction(s, joker, Attack), true);
            var bad := HandleQueenChallenge(HandleJokerAction(s, joker, Attack), false);
            && !good.queenChallenge.isActive && !bad.queenChallenge.isActive
            && good.currentPlayer.health == bad.currentPlayer.health + 4
            && good.currentPlayer.discardPile == bad.currentPlayer.discardPile == s.currentPlayer.discardPile + [queen, j]
  {
    JokerWithQueen(s, joker, Attack, queen, j);
    var a := HandleJokerAction(s, joker, Attack);
    assert a.currentPlayer == s.currentPlayer && a.selectedCards == s.selectedCards;
    QueenJokerFinds(a, queen, j);
    var good, bad := ChallengeAnswered(a, true, queen, j), ChallengeAnswered(a, false, queen, j);
    assert HandleQueenChallenge(a, true) == good;
    assert HandleQueenChallenge(a, false) == bad;
    assert good.currentPlayer.health == s.currentPlayer.maxHealth + 5;
    assert bad.currentPlayer.health == s.currentPlayer.maxHealth + 1;
  }

  /** Answering the challenge with a held Queen and Joker moves both to the discard pile, losing no card. */
  lemma ChallengeConserves(s: State, isCorrect: bool, queen: Card, j: Card)
    requires SelectedPair(s, queen, j) && IsQueen(queen) && IsJoker(j) && Regular(queen) && Regular(j)
    requires queen in Held(s) && j in Held(s) && DistinctIds(Held(s))
    ensures AllCards(HandleQueenChallenge(s, isCorrect)) == AllCards(s)
  {
    QueenJokerFinds(s, queen, j);
    var r := ChallengeAnswered(s, isCorrect, queen, j);
    assert HandleQueenChallenge(s, isCorrect) == r;
    HeldPairDistinct(s, queen, j);
    PairLeavesPlayer(s, queen, j);
    PlayerConserves(s, r.currentPlayer);
  }
}
