/**
 * The deck collaborator. `createDeck`, `shuffleDeck` and `drawCards` live in a
 * module that is not part of this model, so they enter as a record of two
 * functions constrained only by what the engine relies on: shuffling is a
 * permutation, and drawing `n` splits the pile into (remaining, drawn) with at
 * most `n` cards drawn.
 */
module Deck {

  import opened Cards

  predicate IsPermutation(a: seq<Card>, b: seq<Card>)
  {
    multiset(a) == multiset(b)
  }

  /** `drawCards(pile, n)` returned `out == [remaining, drawn]`. */
  predicate IsDraw(pile: seq<Card>, n: nat, out: (seq<Card>, seq<Card>))
  {
    multiset(out.0) + multiset(out.1) == multiset(pile) && |out.1| <= n
  }

  datatype DeckOps = DeckOps(
    shuffle: seq<Card> -> seq<Card>,
    draw: (seq<Card>, nat) -> (seq<Card>, seq<Card>))

  /** The only assumptions the engine makes about its deck collaborator. */
  ghost predicate Lawful(ops: DeckOps)
  {
    && (forall p :: IsPermutation(ops.shuffle(p), p))
    && (forall p, n :: IsDraw(p, n, ops.draw(p, n)))
  }

  /** One lawful collaborator: no shuffling, and drawing takes the first cards of the pile. */
  function TopDraw(pile: seq<Card>, n: nat): (out: (seq<Card>, seq<Card>))
    ensures IsDraw(pile, n, out)
    ensures |out.1| == if n < |pile| then n else |pile|
    ensures out.1 + out.0 == pile
  {
    var k := if n < |pile| then n else |pile|;
    assert pile == pile[..k] + pile[k..];
    (pile[k..], pile[..k])
  }

  const TopOps: DeckOps := DeckOps(p => p, TopDraw)

  lemma TopOpsLawful()
    ensures Lawful(TopOps)
  {
  }

  /** Shuffling and then drawing loses and invents no card (the round-trip property of the deck). */
  lemma ShuffleThenDraw(ops: DeckOps, pile: seq<Card>, n: nat)
    requires Lawful(ops)
    ensures var out := ops.draw(ops.shuffle(pile), n);
            multiset(out.0) + multiset(out.1) == multiset(pile) && |out.1| <= n
  {
    assert IsPermutation(ops.shuffle(pile), pile);
    assert IsDraw(ops.shuffle(pile), n, ops.draw(ops.shuffle(pile), n));
  }
}
