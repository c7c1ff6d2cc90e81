/** The face-down draw pile: a freshly built 52-card deck, dealt from its end. */
module Stocks {
  import opened Cards

  /** The card at position `k` of the unshuffled deck. */
  function DeckCard(k: nat): Card
    requires k < 52
  {
    Card(k / 13 + 1, k % 13 + 1)
  }

  /** The deck in construction order: suits 1..4, each with ranks 1..13. */
  function Deck(): (deck: seq<Card>)
    ensures |deck| == 52
  {
    seq(52, k requires 0 <= k < 52 => DeckCard(k))
  }

  /** Suit-major order: card (s, r) sits at position 13 * (s - 1) + (r - 1). */
  lemma DeckPosition(s: U8, r: U8)
    requires 1 <= s <= 4 && 1 <= r <= 13
    ensures 13 * (s - 1) + (r - 1) < 52
    ensures Deck()[13 * (s - 1) + (r - 1)] == Card(s, r)
  {
    var k := 13 * (s - 1) + (r - 1);
    assert k / 13 == s - 1 && k % 13 == r - 1;
  }

  /** The deck holds every standard card and nothing else. */
  lemma DeckIsComplete(c: Card)
    ensures c in Deck() <==> IsStandard(c)
  {
    if IsStandard(c) {
      DeckPosition(c.suit, c.rank);
    }
  }

  /** No card appears twice in the deck. */
  lemma DeckDistinct(i: nat, j: nat)
    requires i < j < 52
    ensures Deck()[i] != Deck()[j]
  {
    assert i == 13 * (i / 13) + i % 13;
    assert j == 13 * (j / 13) + j % 13;
  }

  /** The first `k` cards dealt from a stock holding `s`, in the order they are dealt. */
  function Dealt(s: seq<Card>, k: nat): (dealt: seq<Card>)
    requires k <= |s|
    ensures |dealt| == k
  {
    seq(k, d requires 0 <= d < k => s[|s| - 1 - d])
  }

  /**
   * Dealing the unshuffled deck starts with the king of diamonds and walks the
   * construction order backwards.
   */
  lemma DealtFromDeck(k: nat, d: nat)
    requires d < k <= 52
    ensures Dealt(Deck(), k)[d] == Deck()[51 - d]
    ensures Dealt(Deck(), k)[0] == Card(4, 13)
  {
    DeckPosition(4, 13);
  }

  class Stock {
    var cards: seq<Card>

    /** A new stock holds the 52-card deck in construction order (not yet shuffled). */
    constructor ()
      ensures cards == Deck()
    {
      var deck := [];
      var i := 1;
      while i <= 4
        invariant 1 <= i <= 5
        invariant deck == Deck()[..13 * (i - 1)]
      {
        var j := 1;
        while j <= 13
          invariant 1 <= j <= 14
          invariant deck == Deck()[..13 * (i - 1) + (j - 1)]
        {
          DeckPosition(i, j);
          deck := deck + [Card(i, j)];
          j := j + 1;
        }
        i := i + 1;
      }
      cards := deck;
    }

    /**
     * Rearranges the stock into `arrangement`, the order the random number
     * generator picked; all that is assumed of it is that it permutes the cards.
     */
    method Shuffle(arrangement: seq<Card>)
      requires multiset(arrangement) == multiset(cards)
      modifies this
      ensures cards == arrangement
      ensures multiset(cards) == old(multiset(cards))
      ensures |cards| == old(|cards|)
    {
      cards := arrangement;
      assert |cards| == |multiset(cards)| == |multiset(old(cards))| == |old(cards)|;
    }

    /** Removes and returns the last card; dealing from an empty stock is a fatal error. */
    method Deal() returns (card: Card)
      requires |cards| > 0
      modifies this
      ensures card == old(cards)[|old(cards)| - 1]
      ensures cards == old(cards)[..|old(cards)| - 1]
      ensures old(cards) == cards + [card]
    {
      card := cards[|cards| - 1];
      cards := cards[..|cards| - 1];
    }
  }

  /** The first deal from a new, unshuffled stock is the king of diamonds. */
  method FirstDealFromNewStock() returns (card: Card)
    ensures card == Card(4, 13)
  {
    var stock := new Stock();
    DeckPosition(4, 13);
    card := stock.Deal();
  }
}
