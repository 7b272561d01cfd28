/**
  Seat labels of the fixed auditorium grid that every movie receives:
  six rows 'A'..'F' with seats numbered 1..10, labelled row letter followed
  by the decimal seat number ("A1", ..., "F10").
 */
module SeatLabels {

  /** Row letters, in the order the grid is generated. */
  const Rows: string := "ABCDEF"

  /** Seats per row; seat numbers run from 1 to SeatsPerRow. */
  const SeatsPerRow: nat := 10

  /** Number of seats every movie receives. */
  const GridSize: nat := 60

  function Digit(d: nat): (c: char)
    requires d < 10
    ensures '0' <= c <= '9'
    ensures DigitValue(c) == d
  {
    ('0' as int + d) as char
  }

  function DigitValue(c: char): nat
  {
    if '0' <= c <= '9' then c as int - '0' as int else 0
  }

  /** The decimal numeral of n with no leading zeros, as str(n) writes it. */
  function Decimal(n: nat): (s: string)
    ensures |s| >= 1
    ensures forall i :: 0 <= i < |s| ==> '0' <= s[i] <= '9'
    ensures n > 0 ==> s[0] != '0'
    decreases n
  {
    if n < 10 then [Digit(n)] else Decimal(n / 10) + [Digit(n % 10)]
  }

  /** The number denoted by a string of decimal digits. */
  function DigitsValue(s: string): nat
  {
    if s == [] then 0 else DigitsValue(s[..|s| - 1]) * 10 + DigitValue(s[|s| - 1])
  }

  /** Reading a numeral back gives the number it was written from. */
  lemma {:induction false} DecimalRoundTrip(n: nat)
    ensures DigitsValue(Decimal(n)) == n
    decreases n
  {
    if n >= 10 {
      DecimalRoundTrip(n / 10);
      var s := Decimal(n);
      assert s[..|s| - 1] == Decimal(n / 10);
    } else {
      assert Decimal(n)[..0] == [];
    }
  }

  /** Different numbers have different numerals. */
  lemma DecimalInjective(a: nat, b: nat)
    requires Decimal(a) == Decimal(b)
    ensures a == b
  {
    DecimalRoundTrip(a);
    DecimalRoundTrip(b);
  }

  /** The label of seat number num in the given row. */
  function SeatLabel(row: char, num: nat): string
  {
    [row] + Decimal(num)
  }

  /** A label determines its row and its seat number. */
  lemma SeatLabelInjective(r1: char, n1: nat, r2: char, n2: nat)
    requires SeatLabel(r1, n1) == SeatLabel(r2, n2)
    ensures r1 == r2 && n1 == n2
  {
    assert r1 == SeatLabel(r1, n1)[0];
    assert Decimal(n1) == SeatLabel(r1, n1)[1..];
    assert Decimal(n2) == SeatLabel(r2, n2)[1..];
    DecimalInjective(n1, n2);
  }

  /** The labels in the order the grid is generated: row by row, seat 1 to 10. */
  function GridLabels(): (ls: seq<string>)
    ensures |ls| == GridSize
  {
    seq(GridSize, k requires 0 <= k < GridSize => SeatLabel(Rows[k / SeatsPerRow], k % SeatsPerRow + 1))
  }

  /** Seat num of row i sits at position 10 * i + num - 1 of the generated order. */
  lemma GridLabelAt(i: nat, num: nat)
    requires i < |Rows| && 1 <= num <= SeatsPerRow
    ensures SeatsPerRow * i + num - 1 < GridSize
    ensures GridLabels()[SeatsPerRow * i + num - 1] == SeatLabel(Rows[i], num)
  {
  }

  /** The grid starts at "A1" and ends at "F10", as the source's f-string writes them. */
  lemma GridLabelEnds()
    ensures GridLabels()[0] == "A1"
    ensures GridLabels()[GridSize - 1] == "F10"
  {
  }

  /** No label is generated twice. */
  lemma GridLabelsDistinct()
    ensures forall i, j :: 0 <= i < j < GridSize ==> GridLabels()[i] != GridLabels()[j]
  {
    forall i, j | 0 <= i < j < GridSize
      ensures GridLabels()[i] != GridLabels()[j]
    {
      if GridLabels()[i] == GridLabels()[j] {
        SeatLabelInjective(Rows[i / SeatsPerRow], i % SeatsPerRow + 1, Rows[j / SeatsPerRow], j % SeatsPerRow + 1);
        assert false;
      }
    }
  }

  /** The set of labels every movie's grid holds. */
  function GridLabelSet(): set<string>
  {
    set l | l in GridLabels()
  }

  /** A sequence without repeated elements has as many distinct elements as it is long. */
  lemma {:induction false} DistinctCardinality<T>(s: seq<T>)
    requires forall i, j :: 0 <= i < j < |s| ==> s[i] != s[j]
    ensures |set x | x in s| == |s|
  {
    if s != [] {
      DistinctCardinality(s[1..]);
      assert (set x | x in s) == {s[0]} + (set x | x in s[1..]);
      assert s[0] !in s[1..];
    }
  }

  /** The grid holds exactly 60 distinct labels. */
  lemma GridLabelSetSize()
    ensures |GridLabelSet()| == GridSize
  {
    GridLabelsDistinct();
    DistinctCardinality(GridLabels());
  }

  /** A label is in the grid iff it names a row 'A'..'F' and a seat number 1..10. */
  lemma GridLabelSetMembers(l: string)
    ensures l in GridLabelSet() <==> exists i, num :: 0 <= i < |Rows| && 1 <= num <= SeatsPerRow && l == SeatLabel(Rows[i], num)
  {
    if l in GridLabelSet() {
      var k :| 0 <= k < GridSize && GridLabels()[k] == l;
      assert l == SeatLabel(Rows[k / SeatsPerRow], k % SeatsPerRow + 1);
    }
    if exists i, num :: 0 <= i < |Rows| && 1 <= num <= SeatsPerRow && l == SeatLabel(Rows[i], num) {
      var i, num :| 0 <= i < |Rows| && 1 <= num <= SeatsPerRow && l == SeatLabel(Rows[i], num);
      GridLabelAt(i, num);
      assert GridLabels()[SeatsPerRow * i + num - 1] == l;
    }
  }

  /** Grid labels are non-empty and contain no comma, so they survive a comma-joined list. */
  lemma GridLabelShape(l: string)
    requires l in GridLabelSet()
    ensures l != [] && ',' !in l
  {
  }
}
