/** The face-up discard pile fed by the stock: a plain stack of cards. */
module Wastes {
  import opened Cards

  class Waste {
    var cards: seq<Card>

    constructor ()
      ensures cards == []
    {
      cards := [];
    }

    /** Puts `card` on top. */
    method Add(card: Card)
      modifies this
      ensures cards == old(cards) + [card]
      ensures GetTopCard() == Some(card)
    {
      cards := cards + [card];
    }

    /** Drops the top card; an empty pile stays empty. */
    method Remove()
      modifies this
      ensures old(cards) == [] ==> cards == []
      ensures old(cards) != [] ==> old(cards) == cards + [old(cards)[|old(cards)| - 1]]
    {
      if |cards| > 0 {
        cards := cards[..|cards| - 1];
      }
    }

    /** The top card, if any. */
    function GetTopCard(): (top: Option<Card>)
      reads this
      ensures top.None? <==> cards == []
      ensures top.Some? ==> cards == cards[..|cards| - 1] + [top.value]
    {
      if |cards| == 0 then None else Some(cards[|cards| - 1])
    }

    /** Empties the pile, whatever it held. */
    method Reset()
      modifies this
      ensures cards == []
    {
      cards := [];
    }
  }

  /** Adding a card and removing it again restores the pile. */
  method AddThenRemove(waste: Waste, card: Card)
    modifies waste
    ensures waste.cards == old(waste.cards)
  {
    waste.Add(card);
    waste.Remove();
  }

  /** A new pile is empty and has no top card. */
  method NewWasteIsEmpty() returns (top: Option<Card>)
    ensures top == None
  {
    var waste := new Waste();
    top := waste.GetTopCard();
  }
}
