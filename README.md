# Klondike rules engine (tersoli), modelled in Dafny

This project models the rules engine of tersoli, a terminal Klondike Solitaire
game. It covers four piles, two label functions and the cursor handler:

- **Tableau**: seven columns. Each column has a cutoff, the number of
  face-down cards at its bottom.
- **Foundation**: four suit piles. Each starts with a `None` sentinel.
- **Stock**: the draw pile, built as a 52-card deck and dealt from its end.
- **Waste**: the discard pile, a plain stack.
- **Labels**: the short card label ("King ♠") and the long card name
  ("King of Spades").
- **Key handler**: the quit key and the cursor on the 7-by-2 screen grid.

One module per source file:

| Module | Models |
|---|---|
| `Cards` | `card.rs`, `location.rs` |
| `Utils` | `utils.rs` |
| `Stocks` | `stock.rs` |
| `Wastes` | `waste.rs` |
| `Foundations` | `foundation.rs` |
| `Tableaux` | `tableau.rs` |
| `MainApp` | `main.rs`: `App::new`, `handle_key_press`, `get_card` |

A pile whose fields the source changes in place is a class. Its `Vec` fields
become `seq` fields (`cards`, `cutoffs`), and each of its methods ties the new
state to a pure function of the old state:

- a tableau move is tied to `MoveSpec` / `TryMoveSpec`
- the placement rule is tied to `Accepts`
- the visible-card search is tied to `FindCard`
- offering a run card by card is tied to `Offer`
- the cutoff rules are tied to `CutoffAfterTake` / `Revealed`
- a foundation pile is tied to `PileOk` / `Height`
- the deck is tied to `Deck` / `Dealt`

The lemmas state what these functions mean:

- The search finds exactly what the placement rule accepts.
- A chain is appended whole.
- The layout invariant `cutoff <= len`, with the top card face up, is kept.
- Each foundation pile stays the ranks 1..r of its suit.
- The deck is complete and has no duplicates.
- The labels are injective.

`move_cards` hands every taken card to `add_card` and ignores the result. So
when the taken run is not a chain, a card the destination refuses is dropped.
`Offer` models this as the source does. `TryMoveChain` proves that nothing is
lost when the run is a chain.

Integers are unbounded in Dafny, so the source's byte types are written out:

- `u8` and `i8` are the subset types `U8` and `I8`.
- `as u8` truncation is `% 256`. It appears in the cutoff rules: `index as u8`
  and `len() as u8`.
- An arithmetic overflow or underflow that would panic becomes a precondition.
  This covers the `rank - 1` and `suit + 1` in the placement rules, the
  foundation's `rank + 1` and `suit - 1`, and the cursor's `i8` steps.
- Other panics also become preconditions: a column or pile index out of
  bounds, `deal` on an empty stock, and the `unreachable!` arms.

The `tableau.rs` tests build tableaux whose cutoffs exceed their column
lengths. So the tableau operations require only what the code indexes.
`Valid()` is the layout invariant: seven columns, no cutoff past its column,
and every top card face up. Each method of the tableau class promises to keep
it when it held before, with two exceptions:

- `TakeCardsAtIndex` keeps it only when it takes from a face-up index (at or
  above the cutoff). `move_cards` only takes from such an index, so
  `MoveCards` keeps the invariant; the lemma `MoveKeepsLayout` states this for
  the move on values.
- `Initialize` re-deals columns of 1 to 7 cards and leaves the cutoffs as they
  are, so it makes `Valid()` true exactly when cutoff i is at most i. That holds
  in play: the cutoffs start at i and only ever drop.

A second property, `VisibleChain`, says that the face-up part of every column
is a chain: each card has the other colour and one rank less than the card
below it. It holds after the deal. Placements, takes from a face-up index and
moves keep it. A move of a column onto itself changes nothing, because no
face-up card ranks below the top. `update_cutoffs` can
break it, so it is kept out of `Valid()`.

## Model

| member | source | states |
|---|---|---|
| Cards.ParityIsColour | src/tableau.rs:92-94 | for standard cards, the `suit % 2` test the rules use separates exactly the black suits from the red ones |
| Utils.Decimal | src/utils.rs:13 | `to_string` of a number yields a non-empty string of decimal digits |
| Utils.DecimalRoundTrip | src/utils.rs:13 | reading back the decimal digits of n gives n |
| Utils.GetCard | src/utils.rs:1-21 | the label is the rank text, then one space, then the suit text, and the first space in it is the one right after the rank text |
| Utils.SuitLabels | src/utils.rs:2-6 | suits 1, 2, 3, 4 give ♠, ♥, ♣, ♦, after the rank text and one space |
| Utils.UnknownSuitLabel | src/utils.rs:7 | any other suit gives "Error" |
| Utils.RankZeroLabel | src/utils.rs:10-20 | rank 0 has empty rank text, so the label is a space followed by the suit text |
| Utils.RankNames | src/utils.rs:10-18 | 1 is "Ace"; 2..9 are one digit; 10 is "10"; 11, 12, 13 are Jack, Queen, King; above 13 is "Error" |
| Utils.NumberRanks | src/utils.rs:13 | ranks 2..10 are written as their decimal digits, which read back as the rank |
| Utils.RankTextInjective | src/utils.rs:10-18 | ranks 0..13 have pairwise different rank texts |
| Utils.LabelsDistinct | src/utils.rs:1-21 | two cards with suit 1..4 and rank 0..13 that get the same label are the same card |
| Stocks.Deck | src/stock.rs:11-22 | the new deck holds 52 cards |
| Stocks.DeckPosition | src/stock.rs:13-17 | card (s, r) is built at position 13(s-1)+(r-1): suit-major order |
| Stocks.DeckIsComplete | src/stock.rs:11-22 | a card is in the deck iff its suit is 1..4 and its rank 1..13 |
| Stocks.DeckDistinct | src/stock.rs:11-22 | no card occurs twice in the deck |
| Stocks.DealtFromDeck | src/stock.rs:11-30 | dealing the unshuffled deck yields the king of diamonds first, then walks the construction order backwards |
| Stocks.Stock.constructor | src/stock.rs:11-22 | a new stock is the deck in construction order |
| Stocks.Stock.Shuffle | src/stock.rs:24-26 | shuffling keeps the multiset of cards and the length; the order is an input |
| Stocks.Stock.Deal | src/stock.rs:28-30 | needs a non-empty stock; returns the last card and leaves exactly the preceding cards |
| Stocks.FirstDealFromNewStock | src/stock.rs:28-30 | the first deal from a new stock is the king of diamonds |
| Wastes.Waste.constructor | src/waste.rs:8-10 | a new waste is empty |
| Wastes.Waste.Add | src/waste.rs:12-14 | the card goes on top, and the top card is then that card |
| Wastes.Waste.Remove | src/waste.rs:16-18 | drops exactly the top card; an empty waste stays empty |
| Wastes.Waste.GetTopCard | src/waste.rs:20-26 | None iff the waste is empty, otherwise the last card; reads only |
| Wastes.Waste.Reset | src/waste.rs:28-30 | the waste is empty afterwards, whatever it held |
| Wastes.AddThenRemove | src/waste.rs:12-18 | adding a card and then removing one restores the waste |
| Wastes.NewWasteIsEmpty | src/waste.rs:8-26 | a new waste has no top card |
| Foundations.TopOfPile | src/foundation.rs:14-19 | on a well-formed pile, the top is no card iff the height is 0, else the card (suit, height) |
| Foundations.PushKeepsPile | src/foundation.rs:40-56 | pushing the next rank of the pile's suit keeps the pile well-formed and raises it by one |
| Foundations.PopKeepsPile | src/foundation.rs:59-61 | popping keeps a pile well-formed; the height drops by one, or stays 0 |
| Foundations.Foundation.constructor | src/foundation.rs:8-12 | four piles, each holding only the sentinel, so every height is 0 |
| Foundations.Foundation.GetTopCard | src/foundation.rs:14-19 | pile position.0 - 3: no card iff its height is 0, else the card of suit position.0 - 2 with rank equal to the height |
| Foundations.Foundation.GetTopCardBySuit | src/foundation.rs:21-26 | pile suit - 1: no card iff its height is 0, else the card of that suit with rank equal to the height |
| Foundations.Foundation.GetTopValue | src/foundation.rs:28-33 | the top value is the pile's height: the rank on top, or 0 |
| Foundations.Foundation.AddCard | src/foundation.rs:35-57 | accepts iff the suits agree and the rank is the pile's height + 1 (an ace on a pile with no card); acceptance pushes onto pile suit - 1 only; refusal changes nothing; the pile invariant is kept |
| Foundations.Foundation.RemoveCard | src/foundation.rs:59-61 | pops pile position.0 - 3; its height drops by one, or stays 0; the invariant is kept |
| Foundations.Foundation.SnapAdd | src/foundation.rs:63-79 | true exactly when the card is the next rank of its own suit's pile, and then the card is pushed there; false changes nothing |
| Foundations.TopCardsAgree | src/foundation.rs:14-26 | reading by position and reading by suit agree when position.0 == suit + 2 |
| Foundations.SpadesScenario | src/foundation.rs:35-57 | on new piles the two of spades is refused, then the ace and the two are accepted, and the spades pile shows rank 2 |
| Tableaux.FindCard | src/tableau.rs:41-60 | the lowest index at or above the cutoff whose card has the rank (and suit parity, when given); None iff no visible card matches |
| Tableaux.RequirementIsPlacementRule | src/tableau.rs:144-157 | the search a move makes (rank 13 for an empty column, else top - 1 with parity (top.suit + 1) % 2) matches exactly the cards the column accepts |
| Tableaux.OfferExtends | src/tableau.rs:137-139 | offering cards one by one only appends to the column, and only offered cards |
| Tableaux.OfferPrefix | src/tableau.rs:137-139 | offering a longer run extends the result of offering its prefix |
| Tableaux.OfferStartsWithFirst | src/tableau.rs:137-139 | when the column accepts the first offered card, that card lands right on top of the old column |
| Tableaux.OfferChain | src/tableau.rs:137-139 | a chain whose first card is accepted is appended whole, in order |
| Tableaux.RevealRule | src/tableau.rs:110-121 | for columns shorter than 256 cards, the cutoff drops by one exactly when 0 < cutoff == length - 1, otherwise it stays |
| Tableaux.TakeRevealsTop | src/tableau.rs:69-71 | taking from visible index k drops the cutoff exactly when 0 < cutoff == k, and leaves the new top face up |
| Tableaux.MoveKeepsLayout | src/tableau.rs:123-142 | a move keeps the layout invariant: seven columns, cutoff <= length, top card face up |
| Tableaux.SearchIsPlacementRule | src/tableau.rs:144-157 | the search finds the lowest face-up card the destination accepts; it finds nothing iff no face-up card fits |
| Tableaux.TryMoveNoFitKeeps | src/tableau.rs:144-157 | for any two columns, when no face-up card of the source fits the destination the move changes nothing |
| Tableaux.TryMoveNoFit | src/tableau.rs:144-157 | between two different columns, a move changes nothing iff no face-up card of the source fits the destination |
| Tableaux.TryMoveFit | src/tableau.rs:130-139 | on a fit at index k the source keeps its first k cards, its cutoff follows the take rule, no other column changes, and the fitting card is placed first |
| Tableaux.TryMoveChain | src/tableau.rs:135-139 | when the taken cards form a chain they all arrive, in order, and the two columns together keep their cards |
| Tableaux.DealtVisibleChain | src/tableau.rs:11-27 | after the deal, with cutoff i on column i, every face-up part is a chain |
| Tableaux.PlaceKeepsVisibleChain | src/tableau.rs:79-104 | one placement, accepted or refused, keeps every face-up part a chain |
| Tableaux.TakeKeepsVisibleChain | src/tableau.rs:62-77 | taking from a face-up index below 256 keeps every face-up part a chain |
| Tableaux.AppendKeepsVisibleChain | src/tableau.rs:135-139 | appending a chain whose first card the column accepts keeps every face-up part a chain |
| Tableaux.ChainRanksAboveTop | src/tableau.rs:79-104 | along a chain built by the placement rule, no card ranks below the top card |
| Tableaux.TryMoveOntoItself | src/tableau.rs:144-157 | when a column's face-up part is a chain, moving it onto itself changes nothing |
| Tableaux.TryMoveConserves | src/tableau.rs:123-157 | when the face-up parts are chains, a move leaves a prefix of the source and puts exactly the rest on the destination, so the two columns keep their cards |
| Tableaux.TryMoveKeepsVisibleChain | src/tableau.rs:123-157 | on a valid layout, any move keeps every face-up part a chain |
| Tableaux.TryMoveApartKeepsVisibleChain | src/tableau.rs:123-157 | on a valid layout, a move between two different columns keeps every face-up part a chain |
| Tableaux.DealRow | src/tableau.rs:21-24 | one row of the layout deal: the next n cards from the stock, in dealt order, and the stock loses exactly those |
| Tableaux.StaircaseStep | src/tableau.rs:20-26 | dealing row i (i + 1 cards) onto a staircase of i columns gives a staircase of i + 1 columns that reads as the first 1+2+...+(i+1) cards dealt |
| Tableaux.StaircaseLayout | src/tableau.rs:11-27 | the dealt staircase with cutoff i <= i on column i satisfies the layout invariant |
| Tableaux.FlattenIndex | src/tableau.rs:18-27 | in the dealt layout, card j of column i is card 1+2+...+i + j of the columns read in order |
| Tableaux.FlattenLength | src/tableau.rs:18-27 | the staircase of columns 0..n-1 holds 1+2+...+n cards |
| Tableaux.Tableau.constructor | src/tableau.rs:11-16 | no columns; cutoffs 0..6 |
| Tableaux.Tableau.Initialize | src/tableau.rs:18-27 | column i gets i + 1 cards; the columns read in order are the first 28 cards dealt, in dealt order; the stock loses exactly those cards; the cutoffs are untouched; the result is valid whenever cutoff i was at most i |
| Tableaux.Tableau.GetTopCard | src/tableau.rs:29-39 | None iff the column is empty, else its last card |
| Tableaux.Tableau.GetVisibleCards | src/tableau.rs:106-108 | the column is its face-down part followed by the visible cards, of which there are length - cutoff |
| Tableaux.Tableau.TakeCardsAtIndex | src/tableau.rs:62-77 | an out-of-range column or index takes nothing; otherwise splits the column at index, returns the rest and applies the cutoff rule; a take from a face-up index keeps the layout invariant, and below 256 also the face-up chains |
| Tableaux.Tableau.AddCard | src/tableau.rs:79-104 | accepts iff a king goes onto an empty column, or the card has the other parity and one rank less than the top; acceptance appends to that column only; refusal changes nothing; cutoffs never change; the layout invariant and the face-up chains are kept |
| Tableaux.Tableau.UpdateCutoffs | src/tableau.rs:110-121 | applies the reveal rule to column index; an out-of-range index changes nothing; the cards never change |
| Tableaux.Tableau.OfferRun | src/tableau.rs:137-139 | offering each card of a run by AddCard, in order, leaves the destination as Offer says and changes nothing else; the layout invariant is kept |
| Tableaux.Tableau.MoveCards | src/tableau.rs:123-142 | the new columns and cutoffs are MoveSpec: find, split and offer the run in order; the layout invariant is kept |
| Tableaux.Tableau.TryToMoveBetweenTableau | src/tableau.rs:144-157 | the new state is the move that searches for what the destination accepts; the layout invariant is kept; when the face-up parts are chains, the two columns keep their cards and the chains are kept |
| Tableaux.NewLayout | src/tableau.rs:11-27 | a new game from an unshuffled stock: column i holds i + 1 cards with cutoff i, the layout is valid with chained face-up parts, the stock keeps 24 cards, and column 0 is the king of diamonds |
| Tableaux.AddCardScenario | src/tableau.rs:179-217 | on the unshuffled layout, column 2 takes the seven of spades and refuses a wrong rank and a same-colour card; an emptied column refuses a seven and takes a king |
| Tableaux.FourOfHeartsMove | src/tableau.rs:220-237 | on the test's layout, the move of column 1 onto column 0 puts the four of hearts on the five of spades and turns the six face up |
| Tableaux.MoveScenario | src/tableau.rs:220-237 | the four of hearts moves onto the five of spades and the six it leaves behind is turned face up |
| MainApp.NavigateStaysReachable | src/main.rs:212-241 | every key keeps the cursor on the grid and off the blank cells (1, 0) and (2, 0) |
| MainApp.HorizontalKeepsRow | src/main.rs:218-229 | Left and Right keep the row and clamp the column to 0..6 |
| MainApp.VerticalKeepsColumn | src/main.rs:230-238 | Up and Down clamp the row to 0..1 and keep the column, except that Up sends column 1 to (0, 0) and column 2 to (3, 0) |
| MainApp.BlankCellRemaps | src/main.rs:218-237 | Left from (3, 0) goes to (0, 0); Right from (0, 0) goes to (3, 0); Up from (1, 1) goes to (0, 0) and from (2, 1) to (3, 0) |
| MainApp.EdgesStay | src/main.rs:218-229 | Left on column 0 and Right on column 6 leave the cursor where it is |
| MainApp.OtherKeysStay | src/main.rs:239 | keys other than the arrows do not move the cursor |
| MainApp.DownThenUp | src/main.rs:230-238 | from a reachable top-row cell, Down then Up comes back |
| MainApp.Walk | src/main.rs:212-241 | from a reachable cell, any sequence of arrow keys ends on a reachable cell |
| MainApp.WalkSnoc | src/main.rs:212-241 | one more key press is one more navigation step |
| MainApp.StartNeverBlank | src/main.rs:87-95 | from the start cell, no sequence of keys reaches (1, 0) or (2, 0) |
| MainApp.App.constructor | src/main.rs:87-95 | starts at (0, 0), not exiting, with tick count 0 and no stock card shown |
| MainApp.App.HandleKeyPress | src/main.rs:212-241 | non-press events change nothing; `q` sets exit and keeps the cursor; other keys move the cursor as Navigate says; a reachable cursor stays reachable |
| MainApp.PressAll | src/main.rs:212-241 | pressing any sequence of keys on a new application leaves the cursor where the walk from (0, 0) ends, on a reachable cell, and sets exit exactly when one of the keys is `q` |
| MainApp.GetCard | src/main.rs:19-38 | the name is the rank name, " of ", then the suit name: the first space ends the rank name |
| MainApp.RankNameIsRankText | src/main.rs:28-35 | apart from rank 0 ("Error" here, empty in the short label), the long and short rank texts agree |
| MainApp.KnownSuit | src/main.rs:20-24 | suits 1..4 are named Spades, Hearts, Clubs and Diamonds after " of " |
| MainApp.UnknownSuit | src/main.rs:25 | any other suit is named "Error" |
| MainApp.ErrorRanks | src/main.rs:28-35 | rank 0 and ranks above 13 are named "Error" |
| MainApp.SuitNameInjective | src/main.rs:20-26 | suits 1..4 have pairwise different names |
| MainApp.LongNamesDistinct | src/main.rs:19-38 | distinct standard cards get distinct long names |

## Left out

- `renderer.rs` is not part of this model. It is the terminal user interface: frames, layouts, canvases and styles.
- In `main.rs`, the following are I/O and are left out: `main`, `run`, terminal set-up and restore, event polling, tick timing (`on_tick`), `draw` and the `*_canvas` widgets. The key handler takes the key event as a parameter.
- `main.rs` also has an older `Stock` that deals from a random index. It is left out; `stock.rs`'s stack-like `Stock` is modelled instead. `App` keeps its `stock_face` field; its `stock` field and `first_deal` are left out with that type.
- `Stocks.Stock.Shuffle`: the random number generator and the shuffle algorithm are not modelled. The chosen arrangement is a parameter, required only to be a permutation of the current cards.
- Panics are preconditions, not behaviour: an index out of bounds, `unreachable!`, `expect` on an empty stock, and `u8`/`i8` overflow or underflow.
- `Tableaux.Tableau.MoveCards` and `Tableaux.Tableau.TryToMoveBetweenTableau` require more than the source strictly needs: every card of both columns must have rank >= 1 and suit <= 254. The source only panics when a top card it subtracts from, or adds to, is out of that range. Keeping both columns in range also rules out a rank-0 card accepted onto an ace.
- Names the game calls but that are not defined in the modelled files are not modelled: `Waste::get_last_cards`, `get_suit_by_card_suit_index`, the `Suit` enum, stock refill, command dispatch and the win check.
- `Tableaux.TryMoveConserves` and the conservation clause of `Tableaux.Tableau.TryToMoveBetweenTableau` cover columns whose face-up parts are chains. Offering a run that is not a chain can drop cards, as the source does.
- `Tableaux.TakeKeepsVisibleChain` and `Tableaux.TryMoveKeepsVisibleChain` need the take index below 256. At 256 or more, `index as u8` can wrap and turn a face-down card face up.
- The foundation is addressed by grid positions and the tableau by `Location`, as in the respective files.
