/**
 * The seat map of an airplane: `generate_seat_labels` in app.py turns a seat
 * count into row-major labels "1A", "1B", ..., six seats per row, columns A-F.
 */
module SeatMap {

  /** The column letters of one row (SEAT_LETTERS). */
  const SeatLetters: string := "ABCDEF"

  /** The row width every caller uses (the default of `per_row`). */
  const PerRow: nat := 6

  // ---------------------------------------------------------------------
  // Decimal rendering of a row number, as Python's f"{row}" does it
  // ---------------------------------------------------------------------

  function Digit(d: nat): (c: char)
    requires d < 10
    ensures '0' <= c <= '9'
  {
    ('0' as int + d) as char
  }

  function DigitValue(c: char): nat
  {
    if '0' <= c <= '9' then (c as int - '0' as int) else 0
  }

  predicate IsDigits(s: string)
  {
    forall k :: 0 <= k < |s| ==> '0' <= s[k] <= '9'
  }

  /** Base-10 text of n, without leading zeros. */
  function Decimal(n: nat): (s: string)
    ensures 1 <= |s| && IsDigits(s)
    ensures |s| == 1 <==> n < 10
    ensures s[0] == '0' ==> n == 0
    decreases n
  {
    if n < 10 then [Digit(n)] else Decimal(n / 10) + [Digit(n % 10)]
  }

  /** Reads a string of decimal digits back into a number. */
  function ParseDecimal(s: string): nat
    decreases |s|
  {
    if s == [] then 0 else ParseDecimal(s[..|s| - 1]) * 10 + DigitValue(s[|s| - 1])
  }

  lemma {:induction false} DecimalRoundTrip(n: nat)
    ensures ParseDecimal(Decimal(n)) == n
    decreases n
  {
    var s := Decimal(n);
    if n >= 10 {
      assert s[..|s| - 1] == Decimal(n / 10);
      DecimalRoundTrip(n / 10);
    }
  }

  // ---------------------------------------------------------------------
  // One label
  // ---------------------------------------------------------------------

  /** The label of the seat at position i (0-based) of the map. */
  function SeatLabel(i: nat, perRow: nat): (text: string)
    requires 0 < perRow <= |SeatLetters|
    ensures |text| >= 2 && text[|text| - 1] in SeatLetters
  {
    Decimal(i / perRow + 1) + [SeatLetters[i % perRow]]
  }

  /** The row number written in a label (everything before its last character). */
  function RowOf(text: string): nat
  {
    if text == [] then 0 else ParseDecimal(text[..|text| - 1])
  }

  /** The 0-based column of a label, from its last character. */
  function ColumnOf(text: string): int
  {
    if text == [] then -1 else text[|text| - 1] as int - 'A' as int
  }

  lemma LetterColumn(k: nat)
    requires k < |SeatLetters|
    ensures SeatLetters[k] as int - 'A' as int == k
  {
  }

  /**
   * A label can be read back: its row is i / perRow + 1 and its column
   * is i % perRow, which makes the map row-major.
   */
  lemma {:induction false} LabelRoundTrip(i: nat, perRow: nat)
    requires 0 < perRow <= |SeatLetters|
    ensures RowOf(SeatLabel(i, perRow)) == i / perRow + 1
    ensures ColumnOf(SeatLabel(i, perRow)) == i % perRow
  {
    var text := SeatLabel(i, perRow);
    assert text[..|text| - 1] == Decimal(i / perRow + 1);
    DecimalRoundTrip(i / perRow + 1);
    LetterColumn(i % perRow);
  }

  /** Two positions with the same label are the same position. */
  lemma {:induction false} SeatLabelInjective(i: nat, j: nat, perRow: nat)
    requires 0 < perRow <= |SeatLetters|
    requires SeatLabel(i, perRow) == SeatLabel(j, perRow)
    ensures i == j
  {
    LabelRoundTrip(i, perRow);
    LabelRoundTrip(j, perRow);
    DivMod(i, perRow);
    DivMod(j, perRow);
  }

  lemma DivMod(i: nat, d: nat)
    requires 0 < d
    ensures i == (i / d) * d + i % d
  {
  }

  // ---------------------------------------------------------------------
  // The whole map
  // ---------------------------------------------------------------------

  /** The labels of positions 0 .. numSeats-1, in order; empty when numSeats <= 0. */
  function SeatMap(numSeats: int, perRow: nat): seq<string>
    requires 0 < perRow <= |SeatLetters|
    decreases if numSeats < 0 then 0 else numSeats
  {
    if numSeats <= 0 then [] else SeatMap(numSeats - 1, perRow) + [SeatLabel(numSeats - 1, perRow)]
  }

  /** The map has exactly numSeats labels and position k holds label k. */
  lemma {:induction false} SeatMapAt(numSeats: int, perRow: nat)
    requires 0 < perRow <= |SeatLetters|
    ensures |SeatMap(numSeats, perRow)| == if numSeats < 0 then 0 else numSeats
    ensures forall k: nat :: k < |SeatMap(numSeats, perRow)| ==>
              SeatMap(numSeats, perRow)[k] == SeatLabel(k, perRow)
    decreases if numSeats < 0 then 0 else numSeats
  {
    if numSeats > 0 {
      SeatMapAt(numSeats - 1, perRow);
    }
  }

  /** No label occurs twice in a seat map. */
  lemma SeatMapDistinct(numSeats: int, perRow: nat)
    requires 0 < perRow <= |SeatLetters|
    ensures forall a, b :: 0 <= a < b < |SeatMap(numSeats, perRow)| ==>
              SeatMap(numSeats, perRow)[a] != SeatMap(numSeats, perRow)[b]
  {
    SeatMapAt(numSeats, perRow);
    forall a, b | 0 <= a < b < |SeatMap(numSeats, perRow)|
      ensures SeatMap(numSeats, perRow)[a] != SeatMap(numSeats, perRow)[b]
    {
      if SeatMap(numSeats, perRow)[a] == SeatMap(numSeats, perRow)[b] {
        SeatLabelInjective(a, b, perRow);
      }
    }
  }

  /** The seat map of a thirteen-seat airplane: two full rows and seat 3A. */
  lemma ThirteenSeats()
    ensures SeatMap(13, PerRow) ==
      ["1A", "1B", "1C", "1D", "1E", "1F", "2A", "2B", "2C", "2D", "2E", "2F", "3A"]
  {
    SeatMapAt(13, PerRow);
    var m := SeatMap(13, PerRow);
    assert Decimal(1) == "1" && Decimal(2) == "2" && Decimal(3) == "3";
    assert m[0] == SeatLabel(0, PerRow) == "1A";
    assert m[1] == SeatLabel(1, PerRow) == "1B";
    assert m[2] == SeatLabel(2, PerRow) == "1C";
    assert m[3] == SeatLabel(3, PerRow) == "1D";
    assert m[4] == SeatLabel(4, PerRow) == "1E";
    assert m[5] == SeatLabel(5, PerRow) == "1F";
    assert m[6] == SeatLabel(6, PerRow) == "2A";
    assert m[7] == SeatLabel(7, PerRow) == "2B";
    assert m[8] == SeatLabel(8, PerRow) == "2C";
    assert m[9] == SeatLabel(9, PerRow) == "2D";
    assert m[10] == SeatLabel(10, PerRow) == "2E";
    assert m[11] == SeatLabel(11, PerRow) == "2F";
    assert m[12] == SeatLabel(12, PerRow) == "3A";
  }

  lemma SeatMapStep(i: nat, perRow: nat)
    requires 0 < perRow <= |SeatLetters|
    ensures SeatMap(i + 1, perRow) ==
              SeatMap(i, perRow) + [Decimal(i / perRow + 1) + [SeatLetters[i % perRow]]]
  {
  }

  /**
   * generate_seat_labels: appends one label per position, in order.
   * Its result is the seat map of numSeats.
   */
  method GenerateSeatLabels(numSeats: int, perRow: nat) returns (seats: seq<string>)
    requires 0 < perRow <= |SeatLetters|
    ensures seats == SeatMap(numSeats, perRow)
  {
    seats := [];
    var count := if numSeats < 0 then 0 else numSeats;
    for i := 0 to count
      invariant seats == SeatMap(i, perRow)
    {
      var row := i / perRow + 1;
      var col := SeatLetters[i % perRow];
      SeatMapStep(i, perRow);
      seats := seats + [Decimal(row) + [col]];
    }
  }
}
