/**
 * The application shell's own logic: the selection cursor moved by the arrow
 * keys over the 7-by-2 screen grid, the quit key, the initial state, and the
 * long card names ("King of Spades").
 */
module MainApp {
  import opened Cards
  import Utils

  // ---------------------------------------------------------------------------
  // Keyboard events

  datatype KeyEventKind = Press | Repeat | Release

  /** The key codes the handler tells apart; every other key is `Other`. */
  datatype KeyCode = Char(ch: char) | Left | Right | Up | Down | Other

  datatype KeyEvent = KeyEvent(code: KeyCode, kind: KeyEventKind)

  // ---------------------------------------------------------------------------
  // Cursor navigation

  /** `min(max(lo, x), hi)`. */
  function Clamp(x: int, lo: int, hi: int): (y: int)
    requires lo <= hi
    ensures lo <= y <= hi
    ensures lo <= x <= hi ==> y == x
  {
    if x < lo then lo else if x > hi then hi else x
  }

  /**
   * The step `handle_key_press` computes on a coordinate is done in a signed
   * byte, so it must not overflow (the source panics on an overflowing `i8`).
   */
  predicate StepFits(sel: Position, code: KeyCode) {
    match code
    case Left => -128 < sel.0
    case Right => sel.0 < 127
    case Up => -128 < sel.1
    case Down => sel.1 < 127
    case _ => true
  }

  /**
   * Where a key moves the cursor: clamp the stepped coordinate to the grid,
   * then send a landing on one of the two blank top-row cells (1, 0) and
   * (2, 0) to the stock (0, 0) or the first foundation (3, 0).
   */
  function Navigate(sel: Position, code: KeyCode): Position
    requires StepFits(sel, code)
  {
    match code
    case Left =>
      var next := (Clamp(sel.0 - 1, 0, 6), sel.1);
      if next == (2, 0) then (0, 0) else next
    case Right =>
      var next := (Clamp(sel.0 + 1, 0, 6), sel.1);
      if next == (1, 0) then (3, 0) else next
    case Up =>
      var next := (sel.0, Clamp(sel.1 - 1, 0, 1));
      if next == (1, 0) then (0, 0) else if next == (2, 0) then (3, 0) else next
    case Down => (sel.0, Clamp(sel.1 + 1, 0, 1))
    case _ => sel
  }

  /** The cells the cursor may rest on: the 7-by-2 grid without the blank cells (1, 0) and (2, 0). */
  predicate Reachable(sel: Position) {
    0 <= sel.0 <= 6 && 0 <= sel.1 <= 1 && sel != (1, 0) && sel != (2, 0)
  }

  /** Every key keeps the cursor on a reachable cell. */
  lemma NavigateStaysReachable(sel: Position, code: KeyCode)
    requires Reachable(sel)
    ensures StepFits(sel, code)
    ensures Reachable(Navigate(sel, code))
  {
  }

  /** Left and Right keep the row and clamp the column to 0..6. */
  lemma HorizontalKeepsRow(sel: Position, code: KeyCode)
    requires code == Left || code == Right
    requires StepFits(sel, code)
    ensures Navigate(sel, code).1 == sel.1
    ensures 0 <= Navigate(sel, code).0 <= 6
  {
  }

  /**
   * Up and Down clamp the row to 0..1 and keep the column, except where Up
   * lands on a blank cell: from column 1 it goes to the stock, from column 2
   * to the first foundation.
   */
  lemma VerticalKeepsColumn(sel: Position, code: KeyCode)
    requires code == Up || code == Down
    requires StepFits(sel, code)
    ensures 0 <= Navigate(sel, code).1 <= 1
    ensures code == Down || (sel.0 != 1 && sel.0 != 2) ==> Navigate(sel, code).0 == sel.0
    ensures code == Up && sel.0 == 1 && sel.1 <= 1 ==> Navigate(sel, code) == (0, 0)
    ensures code == Up && sel.0 == 2 && sel.1 <= 1 ==> Navigate(sel, code) == (3, 0)
  {
  }

  /** The four remaps of the blank cells, each from the cell that steps onto it. */
  lemma BlankCellRemaps()
    ensures Navigate((3, 0), Left) == (0, 0)
    ensures Navigate((0, 0), Right) == (3, 0)
    ensures Navigate((1, 1), Up) == (0, 0)
    ensures Navigate((2, 1), Up) == (3, 0)
  {
  }

  /** Left on the first column and Right on the last leave the cursor where it is. */
  lemma EdgesStay(row: I8)
    requires 0 <= row <= 1
    ensures Navigate((0, row), Left) == (0, row)
    ensures Navigate((6, row), Right) == (6, row)
  {
  }

  /** Keys other than the four arrows do not move the cursor. */
  lemma OtherKeysStay(sel: Position, code: KeyCode)
    requires !(code == Left || code == Right || code == Up || code == Down)
    ensures Navigate(sel, code) == sel
  {
  }

  /** From a reachable top-row cell, Down then Up comes back. */
  lemma DownThenUp(sel: Position)
    requires Reachable(sel) && sel.1 == 0
    ensures Navigate(Navigate(sel, Down), Up) == sel
  {
  }

  /** The cursor after a sequence of key codes, starting from a reachable cell. */
  function Walk(sel: Position, codes: seq<KeyCode>): (end: Position)
    requires Reachable(sel)
    ensures Reachable(end)
    decreases |codes|
  {
    if codes == [] then sel
    else
      NavigateStaysReachable(sel, codes[0]);
      Walk(Navigate(sel, codes[0]), codes[1..])
  }

  /** Walking is stepwise: one more key is one more navigation step. */
  lemma {:induction false} WalkSnoc(sel: Position, codes: seq<KeyCode>, code: KeyCode)
    requires Reachable(sel)
    ensures StepFits(Walk(sel, codes), code)
    ensures Walk(sel, codes + [code]) == Navigate(Walk(sel, codes), code)
    decreases |codes|
  {
    NavigateStaysReachable(Walk(sel, codes), code);
    if codes != [] {
      NavigateStaysReachable(sel, codes[0]);
      assert (codes + [code])[1..] == codes[1..] + [code];
      WalkSnoc(Navigate(sel, codes[0]), codes[1..], code);
    }
  }

  /** From the start cell no sequence of keys reaches a blank cell. */
  lemma StartNeverBlank(codes: seq<KeyCode>)
    ensures Walk((0, 0), codes) != (1, 0) && Walk((0, 0), codes) != (2, 0)
  {
  }

  // ---------------------------------------------------------------------------
  // The application state

  class App {
    var exit: bool
    var tickCount: nat
    var selected: Position
    var stockFace: Option<Card>

    /** Starts on the stock cell, not exiting, with no ticks and no card shown. */
    constructor ()
      ensures !exit && tickCount == 0 && selected == (0, 0) && stockFace == None
      ensures Reachable(selected)
    {
      exit := false;
      tickCount := 0;
      selected := (0, 0);
      stockFace := None;
    }

    /**
     * Handles one key event: only presses count; `q` asks to exit; the arrows
     * move the cursor (see Navigate); any other key does nothing.
     */
    method HandleKeyPress(key: KeyEvent)
      requires key.kind == Press ==> StepFits(selected, key.code)
      modifies this
      ensures key.kind != Press ==> exit == old(exit) && selected == old(selected)
      ensures key.kind == Press && key.code == Char('q') ==> exit && selected == old(selected)
      ensures key.kind == Press && key.code != Char('q') ==>
        exit == old(exit) && selected == Navigate(old(selected), key.code)
      ensures old(Reachable(selected)) ==> Reachable(selected)
      ensures tickCount == old(tickCount) && stockFace == old(stockFace)
    {
      ghost var wasReachable := Reachable(selected);
      if key.kind != Press {
        return;
      }
      match key.code {
        case Char(c) =>
          if c == 'q' {
            exit := true;
          }
        case Left =>
          selected := (Clamp(selected.0 - 1, 0, 6), selected.1);
          if selected == (2, 0) {
            selected := (0, 0);
          }
        case Right =>
          selected := (Clamp(selected.0 + 1, 0, 6), selected.1);
          if selected == (1, 0) {
            selected := (3, 0);
          }
        case Up =>
          selected := (selected.0, Clamp(selected.1 - 1, 0, 1));
          if selected == (1, 0) {
            selected := (0, 0);
          } else if selected == (2, 0) {
            selected := (3, 0);
          }
        case Down =>
          selected := (selected.0, Clamp(selected.1 + 1, 0, 1));
        case Other =>
      }
      if wasReachable {
        NavigateStaysReachable(old(selected), key.code);
      }
    }
  }

  /**
   * A session of key presses from a new application: the cursor ends where
   * walking the keys from the stock cell ends, never on a blank cell (`q`
   * leaves the cursor where it is), and the application is told to exit
   * exactly when one of the keys is `q`.
   */
  method PressAll(codes: seq<KeyCode>) returns (sel: Position, exit: bool)
    ensures sel == Walk((0, 0), codes)
    ensures Reachable(sel)
    ensures exit <==> exists i :: 0 <= i < |codes| && codes[i] == Char('q')
  {
    var app := new App();
    var i := 0;
    while i < |codes|
      invariant 0 <= i <= |codes|
      invariant app.selected == Walk((0, 0), codes[..i])
      invariant app.exit <==> exists j :: 0 <= j < i && codes[j] == Char('q')
    {
      WalkSnoc((0, 0), codes[..i], codes[i]);
      assert codes[..i + 1] == codes[..i] + [codes[i]];
      app.HandleKeyPress(KeyEvent(codes[i], Press));
      i := i + 1;
    }
    assert codes[..i] == codes;
    sel, exit := app.selected, app.exit;
  }

  // ---------------------------------------------------------------------------
  // Long card names

  /** The suit part of a long name: a suit name, or "Error". */
  function SuitName(suit: U8): string {
    match suit
    case 1 => "Spades"
    case 2 => "Hearts"
    case 3 => "Clubs"
    case 4 => "Diamonds"
    case _ => "Error"
  }

  /** The rank part of a long name: Ace, the number, a face name, or "Error" (rank 0 included). */
  function RankName(rank: U8): string {
    if rank == 1 then "Ace"
    else if 2 <= rank <= 10 then Utils.Decimal(rank)
    else if rank == 11 then "Jack"
    else if rank == 12 then "Queen"
    else if rank == 13 then "King"
    else "Error"
  }

  /** The long name of a card: rank name, " of ", suit name. */
  function GetCard(suit: U8, rank: U8): (text: string)
    // the rank name holds no space, so the first space ends it and " of " and the suit name follow
    ensures Utils.FirstSpace(text) == |RankName(rank)| && |RankName(rank)| + 4 <= |text|
    ensures text[..Utils.FirstSpace(text)] == RankName(rank)
    ensures text[Utils.FirstSpace(text)..Utils.FirstSpace(text) + 4] == " of "
    ensures text[Utils.FirstSpace(text) + 4..] == SuitName(suit)
  {
    RankNameNoSpace(rank);
    Utils.FirstSpaceAfterWord(RankName(rank), " of " + SuitName(suit));
    assert RankName(rank) + " of " + SuitName(suit) == RankName(rank) + (" of " + SuitName(suit));
    RankName(rank) + " of " + SuitName(suit)
  }

  lemma RankNameNoSpace(rank: U8)
    ensures forall i :: 0 <= i < |RankName(rank)| ==> RankName(rank)[i] != ' '
  {
  }

  /** Apart from rank 0 ("Error" here, empty in the short label), the long and short rank texts agree. */
  lemma RankNameIsRankText(rank: U8)
    ensures rank != 0 ==> RankName(rank) == Utils.RankText(rank)
    ensures RankName(0) == "Error" && Utils.RankText(0) == ""
  {
  }

  /** Suits 1, 2, 3, 4 are named Spades, Hearts, Clubs, Diamonds, after " of ". */
  lemma KnownSuit(suit: U8, rank: U8)
    requires 1 <= suit <= 4
    ensures GetCard(suit, rank) == RankName(rank) + " of " + ["Spades", "Hearts", "Clubs", "Diamonds"][suit - 1]
  {
  }

  /** Any suit outside 1..4 is named "Error". */
  lemma UnknownSuit(suit: U8, rank: U8)
    requires suit < 1 || 4 < suit
    ensures GetCard(suit, rank) == RankName(rank) + " of Error"
  {
  }

  /** Rank 0 and ranks above 13 are named "Error". */
  lemma ErrorRanks()
    ensures RankName(0) == "Error"
    ensures forall r: U8 :: 13 < r ==> RankName(r) == "Error"
  {
  }

  /** The four suit names are pairwise different. */
  lemma SuitNameInjective(s1: U8, s2: U8)
    requires 1 <= s1 <= 4 && 1 <= s2 <= 4
    requires SuitName(s1) == SuitName(s2)
    ensures s1 == s2
  {
    assert SuitName(s1)[0] == SuitName(s2)[0];
  }

  /** Distinct standard cards get distinct long names. */
  lemma LongNamesDistinct(s1: U8, r1: U8, s2: U8, r2: U8)
    requires 1 <= s1 <= 4 && 1 <= s2 <= 4 && 1 <= r1 <= 13 && 1 <= r2 <= 13
    requires GetCard(s1, r1) == GetCard(s2, r2)
    ensures s1 == s2 && r1 == r2
  {
    var text := GetCard(s1, r1);
    var k := Utils.FirstSpace(text);
    assert RankName(r1) == text[..k] == RankName(r2);
    assert SuitName(s1) == text[k + 4..] == SuitName(s2);
    SuitNameInjective(s1, s2);
    RankNameIsRankText(r1);
    RankNameIsRankText(r2);
    Utils.RankTextInjective(r1, r2);
  }
}
