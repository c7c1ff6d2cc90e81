/** Playing cards, pile addresses and the small value types every pile shares. */
module Cards {

  /** An unsigned byte (Rust `u8`): suits, ranks and tableau cutoffs are bytes. */
  type U8 = x: int | 0 <= x < 256

  /** A signed byte (Rust `i8`): the coordinates of a grid position. */
  type I8 = x: int | -128 <= x < 128

  /** A cell of the 7-by-2 screen grid, as (column, row). */
  type Position = (I8, I8)

  datatype Option<T> = None | Some(value: T)

  /**
   * A card. Nothing in the type keeps suit in 1..4 or rank in 1..13: the
   * source's `Card` takes any pair of bytes, and a test computes a suit as
   * `suit % 2` (tableau.rs:204), which can be 0.
   * Suits: 1 spades, 2 hearts, 3 clubs, 4 diamonds. Ranks: 1 ace .. 13 king.
   */
  datatype Card = Card(suit: U8, rank: U8)

  /** A card of the standard 52-card deck. */
  predicate IsStandard(c: Card) {
    1 <= c.suit <= 4 && 1 <= c.rank <= 13
  }

  /**
   * The two bounds under which the rules' byte arithmetic on a card cannot
   * overflow: `rank - 1` needs rank >= 1 and `suit + 1` needs suit <= 254.
   */
  predicate InRange(c: Card) {
    1 <= c.rank && c.suit < 255
  }

  /** Every card of a pile is in range. */
  predicate AllInRange(cards: seq<Card>) {
    forall c :: c in cards ==> InRange(c)
  }

  /** The colour bit the rules compare: `suit % 2`. */
  function Parity(c: Card): U8 {
    c.suit % 2
  }

  datatype Colour = Black | Red

  /** The colour of a standard suit: spades and clubs are black, hearts and diamonds red. */
  function ColourOf(c: Card): Colour
    requires IsStandard(c)
  {
    if c.suit == 1 || c.suit == 3 then Black else Red
  }

  /** The parity bit the rules compare distinguishes exactly the two colours. */
  lemma ParityIsColour(a: Card, b: Card)
    requires IsStandard(a) && IsStandard(b)
    ensures Parity(a) != Parity(b) <==> ColourOf(a) != ColourOf(b)
  {
  }

  /** An address of one pile (or one pile kind). */
  datatype Location = Stock | Waste | Tableau(index: nat) | Foundation(index: nat)

  /** The last element of a non-empty sequence. */
  function Last<T>(s: seq<T>): T
    requires |s| > 0
  {
    s[|s| - 1]
  }
}
