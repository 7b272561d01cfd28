/**
  The text form of a booking's seat list: the labels joined by commas, as a
  booking row stores them, and the reading of that text back into labels.
 */
module SeatText {

  const Separator: char := ','

  /** The labels joined with a comma between each two, as ','.join(labels) does. */
  function Join(labels: seq<string>): string
  {
    if |labels| == 0 then ""
    else if |labels| == 1 then labels[0]
    else labels[0] + [Separator] + Join(labels[1..])
  }

  /** The pieces of s between commas; a string without commas is one piece. */
  function Split(s: string): (parts: seq<string>)
    ensures |parts| >= 1
    decreases |s|
  {
    if s == [] then [[]]
    else
      var rest := Split(s[1..]);
      if s[0] == Separator then [[]] + rest
      else [[s[0]] + rest[0]] + rest[1..]
  }

  /** The labels a stored seat text names; the empty text names none. */
  function SeatList(s: string): seq<string>
  {
    if s == [] then [] else Split(s)
  }

  /** A label that is fit to be stored in a comma-joined list. */
  predicate Storable(seat: string)
  {
    seat != [] && Separator !in seat
  }

  lemma {:induction false} SplitWithoutSeparator(x: string)
    requires Separator !in x
    ensures Split(x) == [x]
    decreases |x|
  {
    if x != [] {
      SplitWithoutSeparator(x[1..]);
      assert [x[0]] + x[1..] == x;
    }
  }

  lemma {:induction false} SplitAfterSeparator(x: string, rest: string)
    requires Separator !in x
    ensures Split(x + [Separator] + rest) == [x] + Split(rest)
    decreases |x|
  {
    var s := x + [Separator] + rest;
    if x == [] {
      assert s[1..] == rest;
    } else {
      assert s[1..] == x[1..] + [Separator] + rest;
      SplitAfterSeparator(x[1..], rest);
      assert [x[0]] + x[1..] == x;
    }
  }

  /** Reading a joined list of storable labels gives back the list, in order and with repeats. */
  lemma {:induction false} JoinRoundTrip(labels: seq<string>)
    requires forall i :: 0 <= i < |labels| ==> Storable(labels[i])
    ensures SeatList(Join(labels)) == labels
  {
    if |labels| == 1 {
      SplitWithoutSeparator(labels[0]);
    } else if |labels| > 1 {
      JoinRoundTrip(labels[1..]);
      SplitAfterSeparator(labels[0], Join(labels[1..]));
      assert Join(labels) != [];
      assert [labels[0]] + labels[1..] == labels;
      assert Join(labels[1..]) != [] by {
        assert Storable(labels[1]);
        if |labels| == 2 { } else { assert |Join(labels[1..])| >= |labels[1]|; }
      }
    }
  }
}
