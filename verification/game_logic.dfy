/** The small pure helpers of the game-logic service. */
module GameLogic {

  import opened Game

  /** A turn that played cards skips the discard step. */
  function ShouldSkipDiscard(playedCardsLastTurn: int): (skip: bool)
    ensures skip <==> playedCardsLastTurn >= 1
  {
    playedCardsLastTurn > 0
  }

  /** How many cards are missing from a full hand-and-reserve of 7. */
  function CalculateMissingCards(p: Player): (missing: int)
    ensures missing >= 0
    ensures |p.hand| + |p.reserve| <= 7 ==> |p.hand| + |p.reserve| + missing == 7
    ensures |p.hand| + |p.reserve| >= 7 ==> missing == 0
  {
    var total := |p.hand| + |p.reserve|;
    if 7 - total > 0 then 7 - total else 0
  }

  /** The service's Joker heal: three points, and the maximum follows the new health. */
  function HandleJokerHeal(p: Player): (q: Player)
    ensures q.health - p.health == 3
    ensures q.maxHealth == q.health
    ensures q.(health := p.health, maxHealth := p.maxHealth) == p
  {
    var newHealth := p.health + 3;
    p.(health := newHealth, maxHealth := newHealth)
  }

  /** `phases.indexOf(phase)` for `['discard', 'draw', 'action']`. */
  function PhaseIndex(ph: Phase): (i: int)
    ensures -1 <= i < 3
  {
    match ph
    case Discard => 0
    case Draw => 1
    case Action => 2
    case Setup => -1
  }

  const PhaseCycle: seq<Phase> := [Discard, Draw, Action]

  /** The next phase in the cycle; a phase outside the cycle has index -1 and so maps to the first. */
  function GetNextPhase(ph: Phase): (next: Phase)
    ensures next != Setup
    ensures PhaseIndex(next) == (PhaseIndex(ph) + 1) % 3
  {
    PhaseCycle[(PhaseIndex(ph) + 1) % |PhaseCycle|]
  }

  /** Three steps around the cycle come back to where they started. */
  lemma NextPhaseCycles(ph: Phase)
    requires ph != Setup
    ensures GetNextPhase(GetNextPhase(GetNextPhase(ph))) == ph
  {
  }

  /** Discard goes to draw, draw to action, action back to discard; setup enters at discard. */
  lemma NextPhaseTable()
    ensures GetNextPhase(Discard) == Draw
    ensures GetNextPhase(Draw) == Action
    ensures GetNextPhase(Action) == Discard
    ensures GetNextPhase(Setup) == Discard
  {
  }
}
