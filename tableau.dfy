/**
 * The seven tableau columns. Each column lists its cards from the bottom
 * (dealt first) to the top; `cutoffs[i]` counts the face-down cards at the
 * bottom of column i, so the cards from index `cutoffs[i]` on are face up.
 */
module Tableaux {
  import opened Cards
  import opened Stocks

  // ---------------------------------------------------------------------------
  // The rules, as functions of column contents

  /** The top card of a column, if any. */
  function TopOf(column: seq<Card>): Option<Card> {
    if column == [] then None else Some(Last(column))
  }

  /** `child` may lie on `parent`: the other parity, one rank lower. */
  predicate Follows(parent: Card, child: Card) {
    Parity(child) != Parity(parent) && child.rank == parent.rank - 1
  }

  /** The single-card placement rule: a king onto an empty column, else a card that follows the top. */
  predicate Accepts(column: seq<Card>, card: Card) {
    if column == [] then card.rank == 13 else Follows(Last(column), card)
  }

  /** Each card of `run` follows the one below it. */
  predicate IsChain(run: seq<Card>) {
    forall j :: 0 < j < |run| ==> Follows(run[j - 1], run[j])
  }

  /** The rank and optional suit parity a search asks for. */
  predicate Matches(card: Card, rank: U8, suit: Option<U8>) {
    card.rank == rank && (suit.None? || card.suit % 2 == suit.value)
  }

  /**
   * The lowest index from `visible` on whose card matches, if there is one.
   */
  function FindCard(column: seq<Card>, visible: nat, rank: U8, suit: Option<U8>): (found: Option<nat>)
    ensures found.Some? ==>
      visible <= found.value < |column| && Matches(column[found.value], rank, suit) &&
      forall j :: visible <= j < found.value ==> !Matches(column[j], rank, suit)
    ensures found.None? ==> forall j :: visible <= j < |column| ==> !Matches(column[j], rank, suit)
    decreases |column| - visible
  {
    if visible >= |column| then None
    else if Matches(column[visible], rank, suit) then Some(visible)
    else FindCard(column, visible + 1, rank, suit)
  }

  datatype Need = Need(rank: U8, suit: Option<U8>)

  /**
   * What a move onto `column` searches for: a king of any suit onto an empty
   * column, else rank `top - 1` with suit parity `(top.suit + 1) % 2`.
   */
  function Requirement(column: seq<Card>): Need
    requires column == [] || InRange(Last(column))
  {
    if column == [] then Need(13, None)
    else Need(Last(column).rank - 1, Some((Last(column).suit + 1) % 2))
  }

  /** The search a move makes is exactly the placement rule of the destination (both directions). */
  lemma RequirementIsPlacementRule(column: seq<Card>, card: Card)
    requires column == [] || InRange(Last(column))
    ensures Matches(card, Requirement(column).rank, Requirement(column).suit) <==> Accepts(column, card)
  {
    if column != [] {
      var top := Last(column);
      assert (top.suit + 1) % 2 == 1 - top.suit % 2;
    }
  }

  /** One `add_card` on a column: the card is appended when accepted. */
  function Place(column: seq<Card>, card: Card): seq<Card> {
    if Accepts(column, card) then column + [card] else column
  }

  /** Offering the cards of `run` one after the other, in order, to `column`. */
  function Offer(column: seq<Card>, run: seq<Card>): seq<Card>
    decreases |run|
  {
    if run == [] then column else Place(Offer(column, run[..|run| - 1]), run[|run| - 1])
  }

  /** Offering only appends, and only cards of `column` or `run` end up in the result. */
  lemma {:induction false} OfferExtends(column: seq<Card>, run: seq<Card>)
    ensures |Offer(column, run)| >= |column| && Offer(column, run)[..|column|] == column
    ensures forall c :: c in Offer(column, run) ==> c in column || c in run
    decreases |run|
  {
    if run != [] {
      var init := run[..|run| - 1];
      OfferExtends(column, init);
      var before := Offer(column, init);
      assert forall c :: c in init ==> c in run;
      if Accepts(before, run[|run| - 1]) {
        assert (before + [run[|run| - 1]])[..|column|] == before[..|column|];
      }
    }
  }

  /** A longer run's result extends a shorter prefix's result. */
  lemma {:induction false} OfferPrefix(column: seq<Card>, run: seq<Card>, k: nat)
    requires k <= |run|
    ensures |Offer(column, run[..k])| <= |Offer(column, run)|
    ensures Offer(column, run)[..|Offer(column, run[..k])|] == Offer(column, run[..k])
    decreases |run|
  {
    if k < |run| {
      var init := run[..|run| - 1];
      assert init[..k] == run[..k];
      OfferPrefix(column, init, k);
      OfferExtends(Offer(column, init), [run[|run| - 1]]);
      assert [run[|run| - 1]][..0] == [];
      assert Offer(Offer(column, init), [run[|run| - 1]]) == Offer(column, run);
    } else {
      assert run[..k] == run;
    }
  }

  /** The first card offered is appended when the column accepts it. */
  lemma OfferStartsWithFirst(column: seq<Card>, run: seq<Card>)
    requires run != [] && Accepts(column, run[0])
    ensures |Offer(column, run)| > |column|
    ensures Offer(column, run)[..|column| + 1] == column + [run[0]]
  {
    OfferPrefix(column, run, 1);
    assert run[..1][..0] == [];
    assert Offer(column, run[..1]) == column + [run[0]];
  }

  /** A chain whose first card the column accepts is appended whole. */
  lemma {:induction false} OfferChain(column: seq<Card>, run: seq<Card>)
    requires run != [] && Accepts(column, run[0]) && IsChain(run)
    ensures Offer(column, run) == column + run
    decreases |run|
  {
    if |run| == 1 {
      assert run[..0] == [];
      assert column + [run[0]] == column + run;
    } else {
      var init := run[..|run| - 1];
      OfferChain(column, init);
      assert Follows(run[|run| - 2], run[|run| - 1]);
      assert column + init + [run[|run| - 1]] == column + run;
    }
  }

  /** `take_cards_at_index`'s cutoff rule (`index as u8` truncates the index to a byte). */
  function CutoffAfterTake(cutoff: U8, index: nat): U8 {
    if cutoff > 0 && index % 256 <= cutoff then cutoff - 1 else cutoff
  }

  /** `update_cutoffs`'s rule (`len as u8` truncates the length to a byte). */
  function Revealed(cutoff: U8, length: nat): U8 {
    var n := length % 256;
    if cutoff > 0 && n > 0 && cutoff == n - 1 then cutoff - 1 else cutoff
  }

  /** For columns shorter than 256 cards the cutoff drops by one exactly when it sits right below the top. */
  lemma RevealRule(cutoff: U8, length: nat)
    requires length < 256
    ensures Revealed(cutoff, length) == cutoff - 1 <==> 0 < cutoff && cutoff == length - 1
    ensures Revealed(cutoff, length) != cutoff - 1 ==> Revealed(cutoff, length) == cutoff
  {
  }

  /**
   * Taking from a visible index k: the cutoff drops by one exactly when k is
   * the first face-up index of a column with face-down cards, and then the new
   * top (index k - 1) becomes face up.
   */
  lemma TakeRevealsTop(cutoff: U8, k: nat)
    requires cutoff <= k < 256
    ensures CutoffAfterTake(cutoff, k) == cutoff - 1 <==> 0 < cutoff && k == cutoff
    ensures CutoffAfterTake(cutoff, k) != cutoff - 1 ==> CutoffAfterTake(cutoff, k) == cutoff
    ensures k > 0 ==> CutoffAfterTake(cutoff, k) < k
  {
  }

  // ---------------------------------------------------------------------------
  // The layout invariant and the move, as functions of the whole tableau

  /**
   * The tableau invariant: seven columns with seven cutoffs, no cutoff past its
   * column, and the top card of every non-empty column face up.
   */
  predicate Layout(cards: seq<seq<Card>>, cutoffs: seq<U8>) {
    |cards| == 7 && |cutoffs| == 7 &&
    forall i :: 0 <= i < 7 ==>
      cutoffs[i] <= |cards[i]| && (cards[i] != [] ==> cutoffs[i] < |cards[i]|)
  }

  /**
   * `move_cards`: find the first visible card of column `a` that matches,
   * split column `a` there (updating its cutoff) and offer the run, in order,
   * to column `b`.
   */
  function MoveSpec(cards: seq<seq<Card>>, cutoffs: seq<U8>, a: nat, b: nat, rank: U8, suit: Option<U8>)
    : (seq<seq<Card>>, seq<U8>)
    requires a < |cards| && a < |cutoffs| && b < |cards|
  {
    match FindCard(cards[a], cutoffs[a], rank, suit)
    case None => (cards, cutoffs)
    case Some(k) =>
      var mid := cards[a := cards[a][..k]];
      (mid[b := Offer(mid[b], cards[a][k..])], cutoffs[a := CutoffAfterTake(cutoffs[a], k)])
  }

  /** `try_to_move_between_tableau`: a move that searches for what column `b` accepts. */
  function TryMoveSpec(cards: seq<seq<Card>>, cutoffs: seq<U8>, a: nat, b: nat): (seq<seq<Card>>, seq<U8>)
    requires a < |cards| && a < |cutoffs| && b < |cards|
    requires cards[b] == [] || InRange(Last(cards[b]))
  {
    var need := Requirement(cards[b]);
    MoveSpec(cards, cutoffs, a, b, need.rank, need.suit)
  }

  /** A move keeps the layout invariant. */
  lemma MoveKeepsLayout(cards: seq<seq<Card>>, cutoffs: seq<U8>, a: nat, b: nat, rank: U8, suit: Option<U8>)
    requires Layout(cards, cutoffs) && a < 7 && b < 7
    ensures Layout(MoveSpec(cards, cutoffs, a, b, rank, suit).0, MoveSpec(cards, cutoffs, a, b, rank, suit).1)
  {
    var found := FindCard(cards[a], cutoffs[a], rank, suit);
    if found.Some? {
      var k := found.value;
      var mid := cards[a := cards[a][..k]];
      OfferExtends(mid[b], cards[a][k..]);
      var c := CutoffAfterTake(cutoffs[a], k);
      assert c <= cutoffs[a] <= k;
      assert k > 0 ==> c < k;
    }
  }

  /**
   * The search of a move finds the lowest face-up index of column `a` whose
   * card column `b` accepts, or nothing when no face-up card fits.
   */
  lemma SearchIsPlacementRule(cards: seq<seq<Card>>, cutoffs: seq<U8>, a: nat, b: nat)
    requires a < |cards| && a < |cutoffs| && b < |cards|
    requires cards[b] == [] || InRange(Last(cards[b]))
    ensures var found := FindCard(cards[a], cutoffs[a], Requirement(cards[b]).rank, Requirement(cards[b]).suit);
      && (found.Some? ==>
            && cutoffs[a] <= found.value < |cards[a]|
            && Accepts(cards[b], cards[a][found.value])
            && forall j :: cutoffs[a] <= j < found.value ==> !Accepts(cards[b], cards[a][j]))
      && (found.None? <==> forall j :: cutoffs[a] <= j < |cards[a]| ==> !Accepts(cards[b], cards[a][j]))
  {
    var need := Requirement(cards[b]);
    forall j | 0 <= j < |cards[a]|
      ensures Matches(cards[a][j], need.rank, need.suit) <==> Accepts(cards[b], cards[a][j])
    {
      RequirementIsPlacementRule(cards[b], cards[a][j]);
    }
  }

  /** When no face-up card of `a` fits onto `b`, a move changes nothing (for any two columns). */
  lemma TryMoveNoFitKeeps(cards: seq<seq<Card>>, cutoffs: seq<U8>, a: nat, b: nat)
    requires a < |cards| && a < |cutoffs| && b < |cards|
    requires cards[b] == [] || InRange(Last(cards[b]))
    requires forall j :: cutoffs[a] <= j < |cards[a]| ==> !Accepts(cards[b], cards[a][j])
    ensures TryMoveSpec(cards, cutoffs, a, b) == (cards, cutoffs)
  {
    SearchIsPlacementRule(cards, cutoffs, a, b);
  }

  /** Between two different columns, a move changes nothing exactly when no face-up card fits. */
  lemma TryMoveNoFit(cards: seq<seq<Card>>, cutoffs: seq<U8>, a: nat, b: nat)
    requires a < |cards| && a < |cutoffs| && b < |cards| && a != b
    requires cards[b] == [] || InRange(Last(cards[b]))
    ensures TryMoveSpec(cards, cutoffs, a, b) == (cards, cutoffs) <==>
      forall j :: cutoffs[a] <= j < |cards[a]| ==> !Accepts(cards[b], cards[a][j])
  {
    SearchIsPlacementRule(cards, cutoffs, a, b);
    var need := Requirement(cards[b]);
    var found := FindCard(cards[a], cutoffs[a], need.rank, need.suit);
    if found.Some? {
      assert |TryMoveSpec(cards, cutoffs, a, b).0[a]| == found.value < |cards[a]|;
    } else {
      TryMoveNoFitKeeps(cards, cutoffs, a, b);
    }
  }

  /**
   * Between two different columns, when the lowest face-up card of `a` that
   * fits onto `b` sits at index k: column `a` keeps its first k cards, its
   * cutoff follows the take rule, no other column or cutoff changes, and the
   * fitting card is the first one added to `b`.
   */
  lemma TryMoveFit(cards: seq<seq<Card>>, cutoffs: seq<U8>, a: nat, b: nat, k: nat)
    requires a < |cards| && a < |cutoffs| && b < |cards| && a != b
    requires cards[b] == [] || InRange(Last(cards[b]))
    requires cutoffs[a] <= k < |cards[a]| && Accepts(cards[b], cards[a][k])
    requires forall j :: cutoffs[a] <= j < k ==> !Accepts(cards[b], cards[a][j])
    ensures TryMoveSpec(cards, cutoffs, a, b).0[a] == cards[a][..k]
    ensures TryMoveSpec(cards, cutoffs, a, b).1 == cutoffs[a := CutoffAfterTake(cutoffs[a], k)]
    ensures forall i :: 0 <= i < |cards| && i != a && i != b ==> TryMoveSpec(cards, cutoffs, a, b).0[i] == cards[i]
    ensures TryMoveSpec(cards, cutoffs, a, b).0[b] == Offer(cards[b], cards[a][k..])
    ensures |TryMoveSpec(cards, cutoffs, a, b).0[b]| > |cards[b]|
    ensures TryMoveSpec(cards, cutoffs, a, b).0[b][..|cards[b]| + 1] == cards[b] + [cards[a][k]]
  {
    SearchIsPlacementRule(cards, cutoffs, a, b);
    var need := Requirement(cards[b]);
    var found := FindCard(cards[a], cutoffs[a], need.rank, need.suit);
    assert found == Some(k);
    OfferStartsWithFirst(cards[b], cards[a][k..]);
  }

  /**
   * When the taken cards form a chain, every one of them arrives on `b`, in
   * order: the two columns together hold the same cards as before.
   */
  lemma TryMoveChain(cards: seq<seq<Card>>, cutoffs: seq<U8>, a: nat, b: nat, k: nat)
    requires a < |cards| && a < |cutoffs| && b < |cards| && a != b
    requires cards[b] == [] || InRange(Last(cards[b]))
    requires cutoffs[a] <= k < |cards[a]| && Accepts(cards[b], cards[a][k])
    requires forall j :: cutoffs[a] <= j < k ==> !Accepts(cards[b], cards[a][j])
    requires IsChain(cards[a][k..])
    ensures TryMoveSpec(cards, cutoffs, a, b).0[b] == cards[b] + cards[a][k..]
    ensures multiset(TryMoveSpec(cards, cutoffs, a, b).0[a]) + multiset(TryMoveSpec(cards, cutoffs, a, b).0[b])
      == multiset(cards[a]) + multiset(cards[b])
  {
    TryMoveFit(cards, cutoffs, a, b, k);
    OfferChain(cards[b], cards[a][k..]);
    assert cards[a] == cards[a][..k] + cards[a][k..];
  }

  // ---------------------------------------------------------------------------
  // The face-up runs

  /**
   * The face-up part of every column is a chain. The deal makes it true;
   * placements, takes from a face-up index and moves between two columns
   * keep it. `update_cutoffs` can turn a card face up under a single face-up
   * card without checking the rule, so this is not part of Layout.
   */
  predicate VisibleChain(cards: seq<seq<Card>>, cutoffs: seq<U8>) {
    forall i :: 0 <= i < |cards| && i < |cutoffs| && cutoffs[i] <= |cards[i]| ==> IsChain(cards[i][cutoffs[i]..])
  }

  /** Two chains, the second following the top of the first, join into one chain. */
  lemma ChainAppend(x: seq<Card>, y: seq<Card>)
    requires IsChain(x) && IsChain(y)
    requires x != [] && y != [] ==> Follows(Last(x), y[0])
    ensures IsChain(x + y)
  {
    var xy := x + y;
    forall j | 0 < j < |xy|
      ensures Follows(xy[j - 1], xy[j])
    {
      if j == |x| {
        assert xy[j - 1] == Last(x) && xy[j] == y[0];
      } else if j > |x| {
        assert xy[j - 1] == y[j - 1 - |x|] && xy[j] == y[j - |x|];
      }
    }
  }

  /** A slice of a chain is a chain. */
  lemma ChainSlice(run: seq<Card>, i: nat, j: nat)
    requires IsChain(run) && i <= j <= |run|
    ensures IsChain(run[i..j])
  {
    var part := run[i..j];
    forall m | 0 < m < |part|
      ensures Follows(part[m - 1], part[m])
    {
      assert part[m - 1] == run[i + m - 1] && part[m] == run[i + m];
    }
  }

  /** After the deal, with one face-up card per column, every face-up part is a chain. */
  lemma DealtVisibleChain(cards: seq<seq<Card>>, cutoffs: seq<U8>)
    requires |cards| == 7 && forall i :: 0 <= i < 7 ==> |cards[i]| == i + 1
    requires |cutoffs| == 7 && forall i :: 0 <= i < 7 ==> cutoffs[i] == i
    ensures VisibleChain(cards, cutoffs)
  {
    forall i | 0 <= i < 7
      ensures IsChain(cards[i][cutoffs[i]..])
    {
      assert |cards[i][cutoffs[i]..]| == 1;
    }
  }

  /** A placement, accepted or not, keeps every face-up part a chain. */
  lemma PlaceKeepsVisibleChain(cards: seq<seq<Card>>, cutoffs: seq<U8>, i: nat, card: Card)
    requires VisibleChain(cards, cutoffs) && i < |cards|
    ensures VisibleChain(cards[i := Place(cards[i], card)], cutoffs)
  {
    var column := cards[i];
    if Accepts(column, card) && i < |cutoffs| && cutoffs[i] <= |column| {
      var c := cutoffs[i];
      var visible := column[c..];
      assert (column + [card])[c..] == visible + [card];
      if visible != [] {
        assert Last(visible) == Last(column);
      }
      ChainAppend(visible, [card]);
    }
    var after := cards[i := Place(column, card)];
    forall j | 0 <= j < |after| && j < |cutoffs| && cutoffs[j] <= |after[j]|
      ensures IsChain(after[j][cutoffs[j]..])
    {
      if j == i && Accepts(column, card) && cutoffs[i] == |column| + 1 {
        assert after[j][cutoffs[j]..] == [];
      }
    }
  }

  /**
   * Taking from a face-up index k (below 256) keeps every face-up part a
   * chain: what stays face up in the column is a prefix of its face-up part,
   * or the single card the take turns face up.
   */
  lemma TakeKeepsVisibleChain(cards: seq<seq<Card>>, cutoffs: seq<U8>, i: nat, k: nat)
    requires VisibleChain(cards, cutoffs)
    requires i < |cards| && i < |cutoffs| && cutoffs[i] <= k <= |cards[i]| && k < 256
    ensures VisibleChain(cards[i := cards[i][..k]], cutoffs[i := CutoffAfterTake(cutoffs[i], k)])
  {
    var c := cutoffs[i];
    var c' := CutoffAfterTake(c, k);
    TakeRevealsTop(c, k);
    var kept := cards[i][..k];
    if c' == c {
      assert kept[c..] == cards[i][c..][..k - c];
      ChainSlice(cards[i][c..], 0, k - c);
    } else {
      assert |kept[c'..]| == 1;
    }
  }

  /** Ranks fall by one per card along a chain, so no card of it ranks below its top. */
  lemma {:induction false} ChainRanksAboveTop(run: seq<Card>, j: nat)
    requires IsChain(run) && j < |run|
    ensures run[j].rank >= Last(run).rank
    decreases |run| - j
  {
    if j < |run| - 1 {
      ChainRanksAboveTop(run, j + 1);
    }
  }

  /**
   * A move of a column onto itself changes nothing when its face-up part is a
   * chain: no face-up card has the rank one below the top.
   */
  lemma TryMoveOntoItself(cards: seq<seq<Card>>, cutoffs: seq<U8>, a: nat)
    requires VisibleChain(cards, cutoffs)
    requires a < |cards| && a < |cutoffs| && cutoffs[a] <= |cards[a]|
    requires cards[a] == [] || InRange(Last(cards[a]))
    ensures TryMoveSpec(cards, cutoffs, a, a) == (cards, cutoffs)
  {
    var column := cards[a];
    var visible := column[cutoffs[a]..];
    forall j | cutoffs[a] <= j < |column|
      ensures !Accepts(column, column[j])
    {
      ChainRanksAboveTop(visible, j - cutoffs[a]);
      assert visible[j - cutoffs[a]] == column[j];
      assert Last(visible) == Last(column);
    }
    TryMoveNoFitKeeps(cards, cutoffs, a, a);
  }

  /**
   * A move, when the face-up parts are chains, moves the whole run from the
   * card it finds: column `a` keeps a prefix of its cards, column `b` gains
   * exactly the rest, and the two columns together hold the same cards as
   * before (a move of a column onto itself changes nothing).
   */
  lemma TryMoveConserves(cards: seq<seq<Card>>, cutoffs: seq<U8>, a: nat, b: nat)
    requires VisibleChain(cards, cutoffs)
    requires a < |cards| && a < |cutoffs| && b < |cards| && cutoffs[a] <= |cards[a]|
    requires cards[b] == [] || InRange(Last(cards[b]))
    ensures var after := TryMoveSpec(cards, cutoffs, a, b).0;
      && |after[a]| <= |cards[a]|
      && after[a] == cards[a][..|after[a]|]
      && after[b] == cards[b] + cards[a][|after[a]|..]
      && multiset(after[a]) + multiset(after[b]) == multiset(cards[a]) + multiset(cards[b])
  {
    SearchIsPlacementRule(cards, cutoffs, a, b);
    var need := Requirement(cards[b]);
    if a == b {
      TryMoveOntoItself(cards, cutoffs, a);
      assert cards[a][|cards[a]|..] == [];
      assert cards[a][..|cards[a]|] == cards[a];
      return;
    }
    match FindCard(cards[a], cutoffs[a], need.rank, need.suit)
    case None =>
      TryMoveNoFitKeeps(cards, cutoffs, a, b);
      assert cards[a][|cards[a]|..] == [];
      assert cards[a][..|cards[a]|] == cards[a];
    case Some(k) =>
      var visible := cards[a][cutoffs[a]..];
      assert visible[k - cutoffs[a]..] == cards[a][k..];
      ChainSlice(visible, k - cutoffs[a], |visible|);
      TryMoveFit(cards, cutoffs, a, b, k);
      TryMoveChain(cards, cutoffs, a, b, k);
  }

  /** Appending a chain the column accepts keeps every face-up part a chain. */
  lemma AppendKeepsVisibleChain(cards: seq<seq<Card>>, cutoffs: seq<U8>, b: nat, run: seq<Card>)
    requires VisibleChain(cards, cutoffs)
    requires b < |cards| && b < |cutoffs| && cutoffs[b] <= |cards[b]|
    requires IsChain(run) && (run != [] ==> Accepts(cards[b], run[0]))
    ensures VisibleChain(cards[b := cards[b] + run], cutoffs)
  {
    var cb := cutoffs[b];
    var visible := cards[b][cb..];
    if visible != [] {
      assert Last(visible) == Last(cards[b]);
    }
    ChainAppend(visible, run);
    assert (cards[b] + run)[cb..] == visible + run;
  }

  /**
   * On a valid layout whose face-up parts are chains, a move keeps the
   * face-up parts chains (the source column's indices fitting in a byte, as
   * the cutoff rule needs).
   */
  lemma TryMoveKeepsVisibleChain(cards: seq<seq<Card>>, cutoffs: seq<U8>, a: nat, b: nat)
    requires Layout(cards, cutoffs) && VisibleChain(cards, cutoffs)
    requires a < 7 && b < 7 && |cards[a]| <= 256
    requires cards[b] == [] || InRange(Last(cards[b]))
    ensures VisibleChain(TryMoveSpec(cards, cutoffs, a, b).0, TryMoveSpec(cards, cutoffs, a, b).1)
  {
    if a == b {
      TryMoveOntoItself(cards, cutoffs, a);
    } else {
      TryMoveApartKeepsVisibleChain(cards, cutoffs, a, b);
    }
  }

  /** The case of two different columns: the run leaves `a` and is appended to `b` whole. */
  lemma TryMoveApartKeepsVisibleChain(cards: seq<seq<Card>>, cutoffs: seq<U8>, a: nat, b: nat)
    requires Layout(cards, cutoffs) && VisibleChain(cards, cutoffs)
    requires a < 7 && b < 7 && a != b && |cards[a]| <= 256
    requires cards[b] == [] || InRange(Last(cards[b]))
    ensures VisibleChain(TryMoveSpec(cards, cutoffs, a, b).0, TryMoveSpec(cards, cutoffs, a, b).1)
  {
    SearchIsPlacementRule(cards, cutoffs, a, b);
    var need := Requirement(cards[b]);
    match FindCard(cards[a], cutoffs[a], need.rank, need.suit)
    case None =>
      TryMoveNoFitKeeps(cards, cutoffs, a, b);
    case Some(k) =>
      TryMoveConserves(cards, cutoffs, a, b);
      TryMoveFit(cards, cutoffs, a, b, k);
      var run := cards[a][k..];
      var mid := cards[a := cards[a][..k]];
      var cutoffs' := cutoffs[a := CutoffAfterTake(cutoffs[a], k)];
      TakeKeepsVisibleChain(cards, cutoffs, a, k);
      ChainSlice(run, 0, |run|);
      assert run[0..|run|] == run;
      AppendKeepsVisibleChain(mid, cutoffs', b, run);
      assert TryMoveSpec(cards, cutoffs, a, b) == (mid[b := mid[b] + run], cutoffs');
  }

  // ---------------------------------------------------------------------------
  // The tableau object

  /** The number of cards dealt to the columns before column i: 1 + 2 + ... + i. */
  function Tri(i: nat): nat {
    if i == 0 then 0 else Tri(i - 1) + i
  }

  lemma TriBound(i: nat, j: nat)
    requires i < 7 && j <= i
    ensures Tri(i) + j < 28
  {
    assert Tri(6) == 21;
  }

  /** The inner loop of the layout deal: the next n cards from the stock, in dealt order. */
  method DealRow(stock: Stock, n: nat) returns (row: seq<Card>)
    requires n <= |stock.cards|
    modifies stock
    ensures row == Dealt(old(stock.cards), n)
    ensures stock.cards == old(stock.cards)[..|old(stock.cards)| - n]
  {
    ghost var s := stock.cards;
    row := [];
    var j := 0;
    while j < n
      invariant 0 <= j <= n
      invariant stock.cards == s[..|s| - j]
      invariant row == Dealt(s, j)
    {
      var card := stock.Deal();
      row := row + [card];
      j := j + 1;
    }
  }

  /** Dealing t cards and then n more is dealing t + n cards. */
  lemma DealtAppend(s: seq<Card>, t: nat, n: nat)
    requires t + n <= |s|
    ensures Dealt(s, t) + Dealt(s[..|s| - t], n) == Dealt(s, t + n)
    ensures s[..|s| - t][..|s| - t - n] == s[..|s| - (t + n)]
  {
  }

  /** The columns read one after another, bottom to top. */
  function Flatten(columns: seq<seq<Card>>): seq<Card> {
    if columns == [] then [] else Flatten(columns[..|columns| - 1]) + Last(columns)
  }

  lemma FlattenSnoc(columns: seq<seq<Card>>, column: seq<Card>)
    ensures Flatten(columns + [column]) == Flatten(columns) + column
  {
    assert (columns + [column])[..|columns|] == columns;
  }

  /**
   * In a staircase of columns (column c holds c + 1 cards), card j of column i
   * is card Tri(i) + j of the columns read one after another.
   */
  lemma {:induction false} FlattenIndex(columns: seq<seq<Card>>, i: nat, j: nat)
    requires forall c :: 0 <= c < |columns| ==> |columns[c]| == c + 1
    requires j <= i < |columns|
    ensures |Flatten(columns)| == Tri(|columns|)
    ensures Tri(i) + j < |Flatten(columns)|
    ensures Flatten(columns)[Tri(i) + j] == columns[i][j]
    decreases |columns|
  {
    var n := |columns|;
    var front := columns[..n - 1];
    FlattenLength(front);
    if i < n - 1 {
      FlattenIndex(front, i, j);
      TriMonotone(i + 1, n - 1);
    }
  }

  lemma {:induction false} FlattenLength(columns: seq<seq<Card>>)
    requires forall c :: 0 <= c < |columns| ==> |columns[c]| == c + 1
    ensures |Flatten(columns)| == Tri(|columns|)
    decreases |columns|
  {
    if columns != [] {
      FlattenLength(columns[..|columns| - 1]);
    }
  }

  lemma {:induction false} TriMonotone(i: nat, n: nat)
    requires i <= n
    ensures Tri(i) <= Tri(n)
    decreases n
  {
    if i < n {
      TriMonotone(i, n - 1);
    }
  }

  /**
   * The layout deal after i rows: column c holds c + 1 cards and the columns
   * read in order are the first 1 + 2 + ... + i cards dealt from `s`.
   */
  predicate Staircase(columns: seq<seq<Card>>, s: seq<Card>, i: nat) {
    && |columns| == i
    && (forall c :: 0 <= c < i ==> |columns[c]| == c + 1)
    && Tri(i) <= |s|
    && Flatten(columns) == Dealt(s, Tri(i))
  }

  /** Dealing the next row of i + 1 cards extends the staircase by one column. */
  lemma StaircaseStep(columns: seq<seq<Card>>, row: seq<Card>, s: seq<Card>, i: nat)
    requires Staircase(columns, s, i) && Tri(i) + i + 1 <= |s|
    requires row == Dealt(s[..|s| - Tri(i)], i + 1)
    ensures Staircase(columns + [row], s, i + 1)
    ensures s[..|s| - Tri(i)][..|s| - Tri(i) - (i + 1)] == s[..|s| - Tri(i + 1)]
  {
    DealtAppend(s, Tri(i), i + 1);
    FlattenSnoc(columns, row);
  }

  /** The dealt staircase is a valid layout whenever no cutoff hides a column's top card. */
  lemma StaircaseLayout(cards: seq<seq<Card>>, cutoffs: seq<U8>)
    requires |cards| == 7 && forall i :: 0 <= i < 7 ==> |cards[i]| == i + 1
    requires |cutoffs| == 7 && forall i :: 0 <= i < 7 ==> cutoffs[i] <= i
    ensures Layout(cards, cutoffs)
  {
  }

  class Tableau {
    var cards: seq<seq<Card>>
    var cutoffs: seq<U8>

    ghost predicate Valid()
      reads this
    {
      Layout(cards, cutoffs)
    }

    /** No columns yet; column i will start with i face-down cards. */
    constructor ()
      ensures cards == [] && cutoffs == [0, 1, 2, 3, 4, 5, 6]
    {
      cards := [];
      cutoffs := [0, 1, 2, 3, 4, 5, 6];
    }

    /**
     * Deals the layout: column i gets the next i + 1 cards from the stock, so
     * the columns read one after another are the first 28 cards dealt, in
     * dealt order. The cutoffs are left as they are.
     */
    method Initialize(stock: Stock)
      requires |stock.cards| >= 28
      modifies this, stock
      ensures |cards| == 7
      ensures forall i :: 0 <= i < 7 ==> |cards[i]| == i + 1
      ensures Flatten(cards) == Dealt(old(stock.cards), 28)
      ensures stock.cards == old(stock.cards)[..|old(stock.cards)| - 28]
      ensures cutoffs == old(cutoffs)
      ensures |old(cutoffs)| == 7 && (forall i :: 0 <= i < 7 ==> old(cutoffs)[i] <= i) ==> Valid()
    {
      ghost var s := stock.cards;
      var columns := [];
      var i := 0;
      while i < 7
        invariant i <= 7 && Staircase(columns, s, i)
        invariant stock.cards == s[..|s| - Tri(i)]
        modifies stock
      {
        TriBound(i, i);
        var row := DealRow(stock, i + 1);
        StaircaseStep(columns, row, s, i);
        columns := columns + [row];
        i := i + 1;
      }
      cards := columns;
      ghost var staircaseCutoffs := |cutoffs| == 7 && forall i :: 0 <= i < 7 ==> cutoffs[i] <= i;
      if staircaseCutoffs {
        StaircaseLayout(cards, cutoffs);
      }
    }

    /** The top card of a tableau column (addressing anything else is a programming error). */
    function GetTopCard(location: Location): (top: Option<Card>)
      reads this
      requires location.Tableau? && location.index < |cards|
      ensures top.None? <==> cards[location.index] == []
      ensures top.Some? ==> top.value == Last(cards[location.index])
    {
      TopOf(cards[location.index])
    }

    /** The face-up cards of a column: the column is its hidden part followed by these. */
    function GetVisibleCards(column: nat): (visible: seq<Card>)
      reads this
      requires column < |cards| && column < |cutoffs| && cutoffs[column] <= |cards[column]|
      ensures |visible| == |cards[column]| - cutoffs[column]
      ensures cards[column] == cards[column][..cutoffs[column]] + visible
    {
      cards[column][cutoffs[column]..]
    }

    /**
     * Splits a column at `index`, returning the cards from `index` on. An
     * out-of-range column or index takes nothing.
     */
    method TakeCardsAtIndex(location: Location, index: nat) returns (taken: seq<Card>)
      requires location.Tableau?
      requires location.index < |cards| && index <= |cards[location.index]| ==> location.index < |cutoffs|
      modifies this
      ensures location.index >= |old(cards)| || index > |old(cards)[location.index]| ==>
        taken == [] && cards == old(cards) && cutoffs == old(cutoffs)
      ensures location.index < |old(cards)| && index <= |old(cards)[location.index]| ==>
        && taken == old(cards)[location.index][index..]
        && cards == old(cards)[location.index := old(cards)[location.index][..index]]
        && cutoffs == old(cutoffs)[location.index := CutoffAfterTake(old(cutoffs)[location.index], index)]
      ensures old(Valid()) &&
        (location.index < |old(cards)| && index <= |old(cards)[location.index]| ==> old(cutoffs)[location.index] <= index)
        ==> Valid()
      ensures old(VisibleChain(cards, cutoffs)) &&
        (location.index < |old(cards)| && index <= |old(cards)[location.index]| ==> old(cutoffs)[location.index] <= index < 256)
        ==> VisibleChain(cards, cutoffs)
    {
      var column := location.index;
      if column >= |cards| || index > |cards[column]| {
        return [];
      }
      ghost var chained := VisibleChain(cards, cutoffs);
      if chained && cutoffs[column] <= index < 256 {
        TakeKeepsVisibleChain(cards, cutoffs, column, index);
      }
      if cutoffs[column] > 0 && index % 256 <= cutoffs[column] {
        cutoffs := cutoffs[column := cutoffs[column] - 1];
      }
      taken := cards[column][index..];
      cards := cards[column := cards[column][..index]];
    }

    /**
     * The single-card placement onto a tableau column. Once the colours
     * differ, the source subtracts 1 from the top card's rank in a byte, hence
     * the bound on that rank.
     */
    method AddCard(to: Location, card: Card) returns (ok: bool)
      requires to.Tableau? ==> to.index < |cards|
      requires to.Tableau? && cards[to.index] != [] && Parity(card) != Parity(Last(cards[to.index])) ==>
        1 <= Last(cards[to.index]).rank
      modifies this
      ensures ok <==> to.Tableau? && Accepts(old(cards)[to.index], card)
      ensures ok ==> cards == old(cards)[to.index := old(cards)[to.index] + [card]]
      ensures !ok ==> cards == old(cards)
      ensures cutoffs == old(cutoffs)
      ensures old(Valid()) ==> Valid()
      ensures old(VisibleChain(cards, cutoffs)) ==> VisibleChain(cards, cutoffs)
    {
      ghost var chained := VisibleChain(cards, cutoffs);
      if to.Tableau? && chained {
        PlaceKeepsVisibleChain(cards, cutoffs, to.index, card);
      }
      if to.Tableau? {
        var index := to.index;
        match GetTopCard(to)
        case None =>
          if card.rank == 13 {
            cards := cards[index := cards[index] + [card]];
            return true;
          }
          return false;
        case Some(parent) =>
          if card.suit % 2 == parent.suit % 2 {
            return false;
          }
          if card.rank != parent.rank - 1 {
            return false;
          }
          cards := cards[index := cards[index] + [card]];
          return true;
      }
      return false;
    }

    /**
     * Turns the next card face up: when the cutoff sits right below the top
     * card (the column length taken as a byte), it drops by one.
     */
    method UpdateCutoffs(index: nat)
      modifies this
      ensures cards == old(cards)
      ensures index < |old(cutoffs)| && index < |old(cards)| ==>
        cutoffs == old(cutoffs)[index := Revealed(old(cutoffs)[index], |old(cards)[index]|)]
      ensures !(index < |old(cutoffs)| && index < |old(cards)|) ==> cutoffs == old(cutoffs)
      ensures old(Valid()) ==> Valid()
    {
      if index >= |cutoffs| || index >= |cards| {
        return;
      }
      var cutoff := cutoffs[index];
      var cardIndex := |cards[index]| % 256;
      if cutoff > 0 && cardIndex > 0 && cutoff == cardIndex - 1 {
        cutoffs := cutoffs[index := cutoffs[index] - 1];
      }
    }

    /** Offers the cards of `run`, in order, to column `to`, each by AddCard. */
    method OfferRun(to: Location, run: seq<Card>)
      requires to.Tableau? && to.index < |cards|
      requires AllInRange(cards[to.index]) && AllInRange(run)
      modifies this
      ensures cards == old(cards)[to.index := Offer(old(cards)[to.index], run)]
      ensures cutoffs == old(cutoffs)
      ensures old(Valid()) ==> Valid()
    {
      ghost var start := cards;
      var i := 0;
      while i < |run|
        invariant 0 <= i <= |run|
        invariant cards == start[to.index := Offer(start[to.index], run[..i])]
        invariant cutoffs == old(cutoffs)
        invariant old(Valid()) ==> Valid()
      {
        OfferExtends(start[to.index], run[..i]);
        assert forall c :: c in run[..i] ==> c in run;
        if cards[to.index] != [] {
          assert Last(cards[to.index]) in cards[to.index];
        }
        var _ := AddCard(to, run[i]);
        assert run[..i + 1][..i] == run[..i];
        i := i + 1;
      }
      assert run[..i] == run;
    }

    /** Finds, takes and re-offers a run; see MoveSpec. */
    method MoveCards(neededRank: U8, neededSuit: Option<U8>, from: Location, to: Location)
      requires from.Tableau? && to.Tableau?
      requires from.index < |cards| && from.index < |cutoffs| && to.index < |cards|
      requires AllInRange(cards[from.index]) && AllInRange(cards[to.index])
      modifies this
      ensures (cards, cutoffs) == MoveSpec(old(cards), old(cutoffs), from.index, to.index, neededRank, neededSuit)
      ensures old(Valid()) ==> Valid()
    {
      ghost var wasValid := Valid();
      if wasValid {
        MoveKeepsLayout(cards, cutoffs, from.index, to.index, neededRank, neededSuit);
      }
      var cardIndex: nat;
      match FindCard(cards[from.index], cutoffs[from.index], neededRank, neededSuit)
      case None =>
        return;
      case Some(index) =>
        cardIndex := index;
      ghost var before := cards;
      var cardsToMove := TakeCardsAtIndex(from, cardIndex);
      assert forall c :: c in cardsToMove ==> c in before[from.index];
      assert forall c :: c in cards[to.index] ==> c in before[from.index] || c in before[to.index];
      OfferRun(to, cardsToMove);
    }

    /**
     * Moves the run starting at the first face-up card of `from` that fits
     * onto `to` (a king when `to` is empty); does nothing when none fits.
     */
    method TryToMoveBetweenTableau(from: Location, to: Location)
      requires from.Tableau? && to.Tableau?
      requires from.index < |cards| && from.index < |cutoffs| && to.index < |cards|
      requires AllInRange(cards[from.index]) && AllInRange(cards[to.index])
      modifies this
      ensures (cards, cutoffs) == TryMoveSpec(old(cards), old(cutoffs), from.index, to.index)
      ensures old(Valid()) ==> Valid()
      ensures old(VisibleChain(cards, cutoffs)) && old(cutoffs[from.index] <= |cards[from.index]|) ==>
        multiset(cards[from.index]) + multiset(cards[to.index]) ==
        old(multiset(cards[from.index]) + multiset(cards[to.index]))
      ensures old(Valid() && VisibleChain(cards, cutoffs)) && |old(cards)[from.index]| <= 256 ==>
        VisibleChain(cards, cutoffs)
    {
      ghost var wasValid := Valid();
      ghost var chained := VisibleChain(cards, cutoffs);
      if chained {
        if cards[to.index] != [] {
          assert Last(cards[to.index]) in cards[to.index];
        }
        if cutoffs[from.index] <= |cards[from.index]| {
          TryMoveConserves(cards, cutoffs, from.index, to.index);
        }
        if wasValid && |cards[from.index]| <= 256 {
          TryMoveKeepsVisibleChain(cards, cutoffs, from.index, to.index);
        }
      }
      match GetTopCard(to)
      case None =>
        MoveCards(13, None, from, to);
      case Some(toCard) =>
        assert InRange(toCard);
        var neededRank := toCard.rank - 1;
        var neededSuit := (toCard.suit + 1) % 2;
        MoveCards(neededRank, Some(neededSuit), from, to);
    }
  }

  /**
   * A new game from an unshuffled stock: column i holds i + 1 cards of which
   * only the top one is face up, the stock keeps 24 cards, and column 0 is the
   * king of diamonds, the first card dealt.
   */
  method NewLayout() returns (columns: seq<seq<Card>>, cutoffs: seq<U8>, left: nat)
    ensures Layout(columns, cutoffs) && VisibleChain(columns, cutoffs)
    ensures forall i :: 0 <= i < 7 ==> |columns[i]| == i + 1 && cutoffs[i] == i
    ensures left == 24
    ensures columns[0] == [Card(4, 13)]
  {
    var stock := new Stock();
    var tableau := new Tableau();
    tableau.Initialize(stock);
    StaircaseLayout(tableau.cards, tableau.cutoffs);
    DealtVisibleChain(tableau.cards, tableau.cutoffs);
    FlattenIndex(tableau.cards, 0, 0);
    DealtFromDeck(28, 0);
    columns, cutoffs, left := tableau.cards, tableau.cutoffs, |stock.cards|;
  }

  /**
   * The placement rule on the unshuffled layout, where column 2 shows the
   * eight of diamonds: the seven of spades goes on it; a queen of hearts (wrong
   * rank) and the six of spades (same colour) do not; once column 0 is
   * emptied it refuses the seven but takes a king.
   */
  method AddCardScenario() returns (seven: bool, queen: bool, six: bool, sevenOnEmpty: bool, king: bool, len2: nat, len0: nat)
    ensures seven && !queen && !six && !sevenOnEmpty && king
    ensures len2 == 4 && len0 == 1
  {
    var stock := new Stock();
    var tableau := new Tableau();
    tableau.Initialize(stock);
    FlattenIndex(tableau.cards, 2, 2);
    DealtFromDeck(28, 5);
    assert tableau.cards[2][2] == Card(4, 8);
    assert Last(tableau.cards[2]) == Card(4, 8);
    seven := tableau.AddCard(Tableau(2), Card(1, 7));
    assert |tableau.cards[2]| == 4 && Last(tableau.cards[2]) == Card(1, 7);
    queen := tableau.AddCard(Tableau(2), Card(2, 12));
    six := tableau.AddCard(Tableau(2), Card(1, 6));
    len2 := |tableau.cards[2]|;
    var _ := tableau.TakeCardsAtIndex(Tableau(0), 0);
    assert tableau.cards[0] == [];
    sevenOnEmpty := tableau.AddCard(Tableau(0), Card(1, 7));
    king := tableau.AddCard(Tableau(0), Card(1, 13));
    len0 := |tableau.cards[0]|;
  }

  /** The layout of the move scenario: the four of hearts lies face up on a face-down six. */
  function ScenarioStart(): seq<seq<Card>> {
    [[Card(1, 5)], [Card(1, 6), Card(2, 4)], [Card(1, 7)], [], [Card(2, 13)], [], []]
  }

  /**
   * Moving column 1 onto column 0 of the scenario layout: the four of hearts
   * joins the five of spades and the six below it is turned face up.
   */
  lemma FourOfHeartsMove()
    ensures TryMoveSpec(ScenarioStart(), [0, 1, 2, 3, 4, 5, 6], 1, 0) ==
      ([[Card(1, 5), Card(2, 4)], [Card(1, 6)], [Card(1, 7)], [], [Card(2, 13)], [], []], [0, 0, 2, 3, 4, 5, 6])
  {
    var start := ScenarioStart();
    assert Requirement(start[0]) == Need(4, Some(0));
    assert FindCard(start[1], 1, 4, Some(0)) == Some(1);
    assert start[1][1..] == [Card(2, 4)];
    assert Offer([Card(1, 5)], [Card(2, 4)]) == [Card(1, 5), Card(2, 4)] by {
      assert [Card(2, 4)][..0] == [];
    }
    assert start[1][..1] == [Card(1, 6)];
    assert CutoffAfterTake(1, 1) == 0;
    var mid := start[1 := [Card(1, 6)]];
    assert MoveSpec(start, [0, 1, 2, 3, 4, 5, 6], 1, 0, 4, Some(0)) ==
      (mid[0 := Offer(mid[0], [Card(2, 4)])], [0, 1, 2, 3, 4, 5, 6][1 := 0]);
    assert mid[0 := [Card(1, 5), Card(2, 4)]] ==
      [[Card(1, 5), Card(2, 4)], [Card(1, 6)], [Card(1, 7)], [], [Card(2, 13)], [], []];
    assert [0, 1, 2, 3, 4, 5, 6][1 := 0] == [0, 0, 2, 3, 4, 5, 6];
  }

  /**
   * The four of hearts, face up under a face-down six, moves onto the five of
   * spades; the six it leaves behind is turned face up.
   */
  method MoveScenario() returns (len0: nat, movedRank: U8, len1: nat, cutoff1: U8)
    ensures len0 == 2 && movedRank == 4 && len1 == 1 && cutoff1 == 0
  {
    var tableau := new Tableau();
    tableau.cards := ScenarioStart();
    FourOfHeartsMove();
    tableau.TryToMoveBetweenTableau(Tableau(1), Tableau(0));
    len0 := |tableau.cards[0]|;
    movedRank := tableau.cards[0][1].rank;
    len1 := |tableau.cards[1]|;
    cutoff1 := tableau.cutoffs[1];
  }
}
