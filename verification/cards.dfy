/**
 * The card catalogue: suits, values, kinds and colours of the 54-card universe,
 * and the "activator" notion (a 7 or a Joker) that the rules keep testing for.
 */
module Cards {

  /** Cards are compared by identifier throughout the engine. */
  type CardId = string

  datatype Suit = Hearts | Diamonds | Clubs | Spades | Special

  /** The numeric ranks 2..10. */
  type PipRank = r: int | 2 <= r <= 10 witness 2

  datatype Value = Ace | Pip(rank: PipRank) | Jack | Queen | King | JokerValue

  datatype CardType = NumberCard | JokerCard

  datatype Color = Red | Black

  datatype Card = Card(id: CardId, suit: Suit, value: Value, kind: CardType, color: Color)

  predicate IsJoker(c: Card) { c.kind == JokerCard }

  predicate IsSeven(c: Card) { c.value == Pip(7) }

  predicate IsSix(c: Card) { c.value == Pip(6) }

  predicate IsAce(c: Card) { c.value == Ace }

  predicate IsQueen(c: Card) { c.value == Queen }

  /** Jacks and Kings are the face cards that attach to a column. */
  predicate IsJackOrKing(c: Card) { c.value == Jack || c.value == King }

  /** An activator is a Joker or a 7: the only cards that may guard a column's last slot. */
  predicate IsActivator(c: Card) { IsJoker(c) || IsSeven(c) }

  /**
   * A card as the deck builds it: jokers and only jokers carry the joker
   * value, so no card is both an activator and an Ace, a face card or a Queen.
   */
  predicate Regular(c: Card) { c.kind == JokerCard <==> c.value == JokerValue }

  /** The text the source stores in `card.value`. */
  function ValueText(v: Value): (t: string)
    ensures |t| > 0
  {
    match v
    case Ace => "A"
    case Pip(n) => if n == 10 then "10" else [('0' as int + n) as char]
    case Jack => "J"
    case Queen => "Q"
    case King => "K"
    case JokerValue => "JOKER"
  }

  /** Distinct values have distinct texts, so comparing texts is comparing values. */
  lemma ValueTextInjective(v: Value, w: Value)
    ensures ValueText(v) == ValueText(w) <==> v == w
  {
    if ValueText(v) == ValueText(w) {
      match v
      case Pip(n) =>
        if w.Pip? && n != 10 && w.rank != 10 {
          assert ValueText(v)[0] == ValueText(w)[0];
        }
      case _ =>
    }
  }
}
