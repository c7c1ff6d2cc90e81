/**
 * The four suit foundations. Each pile is a vector of optional cards that
 * starts as a lone `None` sentinel; cards of one suit are pushed on it in
 * ascending rank from the ace. Piles are addressed by suit (pile suit - 1) or
 * by a screen position whose column 3..6 means pile 0..3.
 */
module Foundations {
  import opened Cards

  type Pile = seq<Option<Card>>

  /** 1 while the pile still has its `None` sentinel at the bottom, otherwise 0. */
  function Base(p: Pile): nat {
    if |p| > 0 && p[0] == None then 1 else 0
  }

  /** The number of cards on a pile; the sentinel is not a card. */
  function Height(p: Pile): nat
    requires Base(p) <= |p|
  {
    |p| - Base(p)
  }

  /**
   * The foundation invariant: above the optional sentinel, the pile holds the
   * cards of suit `s` with ranks 1, 2, ..., in that order and without gaps.
   */
  predicate PileOk(p: Pile, s: U8) {
    forall j :: Base(p) <= j < |p| ==>
      p[j].Some? && p[j].value.suit == s && p[j].value.rank == j - Base(p) + 1
  }

  /** What `last()` finds, with the sentinel read as "no card". */
  function Top(p: Pile): Option<Card> {
    if p == [] then None else p[|p| - 1]
  }

  /** The pile without its last entry; popping an empty pile leaves it empty. */
  function Pop(p: Pile): Pile {
    if p == [] then [] else p[..|p| - 1]
  }

  /** On a well-formed pile the top is "no card" exactly when the height is 0, else the card (s, height). */
  lemma TopOfPile(p: Pile, s: U8)
    requires PileOk(p, s)
    ensures Top(p).None? <==> Height(p) == 0
    ensures Top(p).Some? ==> Top(p).value.suit == s && Top(p).value.rank == Height(p)
  {
    if |p| > 0 && p[|p| - 1] == None {
      assert Base(p) == 1 && |p| == 1;
    }
  }

  /** Pushing the card (s, height + 1) keeps a pile well-formed and raises it by one. */
  lemma PushKeepsPile(p: Pile, s: U8, c: Card)
    requires PileOk(p, s)
    requires c.suit == s && c.rank == Height(p) + 1
    ensures PileOk(p + [Some(c)], s)
    ensures Height(p + [Some(c)]) == Height(p) + 1
  {
    assert Base(p + [Some(c)]) == Base(p);
  }

  /** Popping keeps a pile well-formed; the height drops by one, or stays 0. */
  lemma PopKeepsPile(p: Pile, s: U8)
    requires PileOk(p, s)
    ensures PileOk(Pop(p), s)
    ensures Height(Pop(p)) == if Height(p) == 0 then 0 else Height(p) - 1
  {
    if |p| > 1 {
      assert Base(Pop(p)) == Base(p);
    }
  }

  class Foundation {
    var cards: seq<Pile>

    ghost predicate Valid()
      reads this
    {
      |cards| == 4 && forall k :: 0 <= k < 4 ==> PileOk(cards[k], k + 1)
    }

    /** Four piles, each holding only its sentinel. */
    constructor ()
      ensures cards == [[None], [None], [None], [None]]
      ensures Valid()
      ensures forall k :: 0 <= k < 4 ==> Height(cards[k]) == 0
    {
      cards := [[None], [None], [None], [None]];
    }

    /** The top card of the pile at screen column 3..6. */
    function GetTopCard(position: Position): (top: Option<Card>)
      reads this
      requires Valid() && 3 <= position.0 <= 6
      ensures top.None? <==> Height(cards[position.0 - 3]) == 0
      ensures top.Some? ==>
        top.value.suit == position.0 - 2 && top.value.rank == Height(cards[position.0 - 3])
    {
      TopOfPile(cards[position.0 - 3], position.0 - 2);
      Top(cards[position.0 - 3])
    }

    /** The top card of the pile of `suit`. */
    function GetTopCardBySuit(suit: U8): (top: Option<Card>)
      reads this
      requires Valid() && 1 <= suit <= 4
      ensures top.None? <==> Height(cards[suit - 1]) == 0
      ensures top.Some? ==> top.value == Card(suit, top.value.rank) && top.value.rank == Height(cards[suit - 1])
    {
      TopOfPile(cards[suit - 1], suit);
      Top(cards[suit - 1])
    }

    /** The rank on top of the pile at screen column 3..6, or 0 for no card. */
    function GetTopValue(position: Position): (value: U8)
      reads this
      requires Valid() && 3 <= position.0 <= 6
      ensures value == Height(cards[position.0 - 3])
    {
      match GetTopCard(position)
      case Some(card) => card.rank
      case None => 0
    }

    /**
     * Places `card` on the pile of `toSuit`: only a card of that suit, and only
     * the next rank (an ace on a pile with no card). The source adds 1 to the
     * top rank in a byte, hence the bound on the height.
     */
    method AddCard(card: Card, toSuit: U8) returns (ok: bool)
      requires Valid()
      requires card.suit == toSuit ==> 1 <= toSuit <= 4 && Height(cards[toSuit - 1]) < 255
      modifies this
      ensures Valid()
      ensures ok <==> card.suit == toSuit && card.rank == old(Height(cards[toSuit - 1])) + 1
      ensures ok ==> cards == old(cards)[toSuit - 1 := old(cards[toSuit - 1]) + [Some(card)]]
      ensures !ok ==> cards == old(cards)
    {
      if card.suit != toSuit {
        return false;
      }
      var k := card.suit - 1;
      match GetTopCardBySuit(card.suit)
      case None =>
        if card.rank == 1 {
          PushKeepsPile(cards[k], card.suit, card);
          cards := cards[k := cards[k] + [Some(card)]];
          return true;
        }
        return false;
      case Some(parent) =>
        assert parent.rank < 255;
        if card.rank != parent.rank + 1 {
          return false;
        }
        PushKeepsPile(cards[k], card.suit, card);
        cards := cards[k := cards[k] + [Some(card)]];
        return true;
    }

    /** Takes back the top of the pile at screen column 3..6 (pops unconditionally). */
    method RemoveCard(position: Position)
      requires Valid() && 3 <= position.0 <= 6
      modifies this
      ensures Valid()
      ensures cards == old(cards)[position.0 - 3 := Pop(old(cards[position.0 - 3]))]
      ensures Height(cards[position.0 - 3]) ==
        if old(Height(cards[position.0 - 3])) == 0 then 0 else old(Height(cards[position.0 - 3])) - 1
    {
      var k := position.0 - 3;
      PopKeepsPile(cards[k], k + 1);
      cards := cards[k := Pop(cards[k])];
    }

    /** Auto-place: puts `card` on its own suit's pile when it is the next rank there. */
    method SnapAdd(card: Card) returns (ok: bool)
      requires Valid() && 1 <= card.suit <= 4 && 1 <= card.rank
      modifies this
      ensures Valid()
      ensures ok <==> card.rank == old(Height(cards[card.suit - 1])) + 1
      ensures ok ==> cards == old(cards)[card.suit - 1 := old(cards[card.suit - 1]) + [Some(card)]]
      ensures !ok ==> cards == old(cards)
    {
      var k := card.suit - 1;
      TopOfPile(cards[k], card.suit);
      var foundationRank := match Top(cards[k]) case Some(top) => top.rank case None => 0;
      if foundationRank != card.rank - 1 {
        return false;
      } else {
        var _ := AddCard(card, card.suit);
        return true;
      }
    }
  }

  /** Reading a pile by screen position and by suit agree when column = suit + 2. */
  lemma TopCardsAgree(f: Foundation, position: Position, suit: U8)
    requires f.Valid() && 1 <= suit <= 4 && position.0 == suit + 2
    ensures f.GetTopCard(position) == f.GetTopCardBySuit(suit)
  {
  }

  /**
   * On a fresh foundation the two of spades is refused, the ace accepted, then
   * the two accepted, after which the spades pile shows rank 2.
   */
  method SpadesScenario() returns (two: bool, ace: bool, twoAgain: bool, top: U8)
    ensures !two && ace && twoAgain && top == 2
  {
    var f := new Foundation();
    two := f.AddCard(Card(1, 2), 1);
    ace := f.AddCard(Card(1, 1), 1);
    twoAgain := f.AddCard(Card(1, 2), 1);
    top := f.GetTopValue((3, 0));
  }
}
