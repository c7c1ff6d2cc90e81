/** Short card labels ("King ♠"), as drawn on the piles. */
module Utils {
  import opened Cards

  /** The decimal digits of `n`, as Rust's `to_string` writes an unsigned integer. */
  function Decimal(n: nat): (s: string)
    ensures |s| >= 1
    ensures forall i :: 0 <= i < |s| ==> IsDigit(s[i])
    decreases n
  {
    var last := [('0' as int + n % 10) as char];
    if n < 10 then last else Decimal(n / 10) + last
  }

  predicate IsDigit(ch: char) {
    '0' <= ch <= '9'
  }

  /** The number a string of decimal digits denotes (the inverse of Decimal). */
  function DecimalValue(s: string): nat
    requires forall i :: 0 <= i < |s| ==> IsDigit(s[i])
  {
    if s == [] then 0
    else
      assert IsDigit(s[|s| - 1]);
      DecimalValue(s[..|s| - 1]) * 10 + (s[|s| - 1] as int - '0' as int)
  }

  /** Reading back the digits of `n` gives `n`: distinct numbers have distinct texts. */
  lemma {:induction false} DecimalRoundTrip(n: nat)
    ensures DecimalValue(Decimal(n)) == n
    decreases n
  {
    var s := Decimal(n);
    if n >= 10 {
      DecimalRoundTrip(n / 10);
      assert s[..|s| - 1] == Decimal(n / 10);
    }
  }

  /** The suit part of a short label: a suit symbol, or "Error". */
  function SuitSymbol(suit: U8): string {
    match suit
    case 1 => "♠"
    case 2 => "♥"
    case 3 => "♣"
    case 4 => "♦"
    case _ => "Error"
  }

  /** The rank part of a short label: empty for 0, a name or the number, or "Error". */
  function RankText(rank: U8): string {
    if rank == 0 then ""
    else if rank == 1 then "Ace"
    else if rank <= 10 then Decimal(rank)
    else if rank == 11 then "Jack"
    else if rank == 12 then "Queen"
    else if rank == 13 then "King"
    else "Error"
  }

  /** The short label of a card: rank text, one space, suit text. */
  function GetCard(suit: U8, rank: U8): (text: string)
    // the rank text holds no space, so the first space ends it and the suit text follows it
    ensures FirstSpace(text) == |RankText(rank)| < |text|
    ensures text[..FirstSpace(text)] == RankText(rank)
    ensures text[FirstSpace(text) + 1..] == SuitSymbol(suit)
  {
    RankNoSpace(rank);
    FirstSpaceAfterWord(RankText(rank), " " + SuitSymbol(suit));
    assert RankText(rank) + " " + SuitSymbol(suit) == RankText(rank) + (" " + SuitSymbol(suit));
    RankText(rank) + " " + SuitSymbol(suit)
  }

  lemma RankNoSpace(rank: U8)
    ensures forall i :: 0 <= i < |RankText(rank)| ==> RankText(rank)[i] != ' '
  {
  }

  /** The index of the first space in `s`, or |s| when there is none. */
  function FirstSpace(s: string): (k: nat)
    ensures k <= |s|
  {
    if s == [] || s[0] == ' ' then 0 else 1 + FirstSpace(s[1..])
  }

  /** A space-free word followed by a space: the first space is right after the word. */
  lemma {:induction false} FirstSpaceAfterWord(a: string, b: string)
    requires forall i :: 0 <= i < |a| ==> a[i] != ' '
    requires |b| > 0 && b[0] == ' '
    ensures FirstSpace(a + b) == |a|
  {
    if a != [] {
      assert (a + b)[1..] == a[1..] + b;
      FirstSpaceAfterWord(a[1..], b);
    }
  }

  /** Ranks 0..13 have pairwise different rank texts. */
  lemma RankTextInjective(r1: U8, r2: U8)
    requires r1 <= 13 && r2 <= 13
    requires RankText(r1) == RankText(r2)
    ensures r1 == r2
  {
    if 2 <= r1 <= 10 && 2 <= r2 <= 10 {
      DecimalRoundTrip(r1);
      DecimalRoundTrip(r2);
    }
  }

  /**
   * Distinct cards with suit 1..4 and rank 0..13 get distinct labels, so a
   * label names exactly one card.
   */
  lemma LabelsDistinct(s1: U8, r1: U8, s2: U8, r2: U8)
    requires 1 <= s1 <= 4 && 1 <= s2 <= 4 && r1 <= 13 && r2 <= 13
    requires GetCard(s1, r1) == GetCard(s2, r2)
    ensures s1 == s2 && r1 == r2
  {
    var text := GetCard(s1, r1);
    var k := FirstSpace(text);
    assert RankText(r1) == text[..k] == RankText(r2);
    assert SuitSymbol(s1) == text[k + 1..] == SuitSymbol(s2);
    RankTextInjective(r1, r2);
  }

  /** Suits 1, 2, 3, 4 map to spades, hearts, clubs and diamonds, after one space. */
  lemma SuitLabels(suit: U8, rank: U8)
    requires 1 <= suit <= 4
    ensures GetCard(suit, rank) == RankText(rank) + " " + ["♠", "♥", "♣", "♦"][suit - 1]
  {
  }

  /** Any other suit maps to "Error". */
  lemma UnknownSuitLabel(suit: U8, rank: U8)
    requires suit < 1 || 4 < suit
    ensures GetCard(suit, rank) == RankText(rank) + " Error"
  {
  }

  /** Rank 0 leaves the rank text empty, so the label is a space and the suit text. */
  lemma RankZeroLabel(suit: U8)
    ensures GetCard(suit, 0) == " " + SuitSymbol(suit)
  {
  }

  /** The rank names: Ace, one digit for 2..9, "10", the face names, "Error" above 13. */
  lemma RankNames()
    ensures RankText(1) == "Ace" && RankText(11) == "Jack"
    ensures RankText(12) == "Queen" && RankText(13) == "King"
    ensures forall r: U8 :: 2 <= r <= 9 ==> RankText(r) == [('0' as int + r) as char]
    ensures RankText(10) == "10"
    ensures forall r: U8 :: 13 < r ==> RankText(r) == "Error"
  {
    assert Decimal(10) == "10";
  }

  /** Ranks 2..10 are written as their decimal digits. */
  lemma NumberRanks(rank: U8)
    requires 2 <= rank <= 10
    ensures RankText(rank) == Decimal(rank)
    ensures DecimalValue(RankText(rank)) == rank
  {
    DecimalRoundTrip(rank);
  }
}
