/**
  The seat-booking ledger as values: the seat table of every movie, the
  booking records, the rules that read them (availability, the seat-chart
  cell, ticket validation) and the table updates that reservation, payment
  and movie creation perform. The consistency predicate at the end states
  what the three updates keep true of the tables.
 */
module Ledger {
  import opened Wrappers
  import opened SeatLabels
  import opened SeatText

  /** Price of one seat. */
  const UnitPrice: nat := 50000

  /** The payment types a payment may name. */
  const PaymentTypes: set<string> := {"Cash", "Card", "E-Wallet"}

  const NotAvailableMessage: string := "Some seats are not available"
  const ValidTicket: string := "Valid Ticket"
  const InvalidTicket: string := "Invalid Ticket"
  const AvailableCell: string := "[ ] "
  const BookedCell: string := "[X] "

  /** A seat row is identified by its movie and its label. */
  datatype SeatKey = SeatKey(movieId: int, seatLabel: string)

  /** The seat table: the booked flag of every seat row. */
  type SeatTable = map<SeatKey, bool>

  datatype Movie = Movie(title: string, genre: string, date: string, time: string, studioId: int)

  datatype PaymentStatus = Pending | Completed

  /** A booking row; `seats` holds the reserved labels joined by commas. */
  datatype Booking = Booking(
    bookingId: string,
    username: string,
    movieId: int,
    seats: string,
    totalPrice: int,
    typePayment: Option<string>,
    paymentStatus: PaymentStatus)

  datatype PaymentError = InvalidPaymentType | QrCodeGenerationFailed

  // ----- Seat grid of a new movie -----

  /** The seat table after inserting an unbooked row for each label of `labels` under movieId. */
  function WithGrid(seats: SeatTable, movieId: int, labels: seq<string>): SeatTable
  {
    seats + map l | l in labels :: SeatKey(movieId, l) := false
  }

  lemma WithGridStep(seats: SeatTable, movieId: int, labels: seq<string>, l: string)
    ensures WithGrid(seats, movieId, labels + [l]) == WithGrid(seats, movieId, labels)[SeatKey(movieId, l) := false]
  {
  }

  /** Inserting seat num of row i extends the grid prefix inserted so far by one label. */
  lemma WithGridNext(seats: SeatTable, movieId: int, i: nat, num: nat)
    requires i < |Rows| && 1 <= num <= SeatsPerRow
    ensures SeatsPerRow * i + num <= GridSize
    ensures WithGrid(seats, movieId, GridLabels()[..SeatsPerRow * i + num]) ==
            WithGrid(seats, movieId, GridLabels()[..SeatsPerRow * i + num - 1])[SeatKey(movieId, SeatLabel(Rows[i], num)) := false]
  {
    var done := SeatsPerRow * i + num - 1;
    var g := GridLabels();
    GridLabelAt(i, num);
    assert g[..done + 1] == g[..done] + [SeatLabel(Rows[i], num)];
    WithGridStep(seats, movieId, g[..done], SeatLabel(Rows[i], num));
  }

  /** The seat table holds no row of the movie yet. */
  predicate NoSeatsFor(seats: SeatTable, movieId: int)
  {
    forall k :: k in seats ==> k.movieId != movieId
  }

  /** Rows of the movie that are not booked: `get_available_seats`. */
  function AvailableSeats(seats: SeatTable, movieId: int): (r: set<string>)
    ensures forall l :: l in r <==> SeatKey(movieId, l) in seats && !seats[SeatKey(movieId, l)]
  {
    set k | k in seats && k.movieId == movieId && !seats[k] :: k.seatLabel
  }

  /**
    Inserting the grid for a movie without seats gives it exactly the 60 grid
    labels, all available, and leaves every other movie's rows as they were.
   */
  lemma NewMovieGrid(seats: SeatTable, movieId: int)
    requires NoSeatsFor(seats, movieId)
    ensures forall l :: SeatKey(movieId, l) in WithGrid(seats, movieId, GridLabels()) <==> l in GridLabelSet()
    ensures AvailableSeats(WithGrid(seats, movieId, GridLabels()), movieId) == GridLabelSet()
    ensures |AvailableSeats(WithGrid(seats, movieId, GridLabels()), movieId)| == GridSize
    ensures forall k: SeatKey :: k.movieId != movieId ==>
              (k in WithGrid(seats, movieId, GridLabels()) <==> k in seats) &&
              (k in seats ==> WithGrid(seats, movieId, GridLabels())[k] == seats[k])
  {
    var s' := WithGrid(seats, movieId, GridLabels());
    forall l ensures l in AvailableSeats(s', movieId) <==> l in GridLabelSet() {
      if SeatKey(movieId, l) in s' {
        assert SeatKey(movieId, l) !in seats;
      }
    }
    GridLabelSetSize();
  }

  // ----- Seat chart -----

  /** The booked flag the chart reads for a label, 1 when the movie has no such seat. */
  function ChartFlag(seats: SeatTable, movieId: int, l: string): int
  {
    var k := SeatKey(movieId, l);
    if k in seats then (if seats[k] then 1 else 0) else 1
  }

  /** The chart cell of one label: open only for an existing unbooked seat. */
  function ChartCell(seats: SeatTable, movieId: int, l: string): (cell: string)
    ensures cell == AvailableCell <==> l in AvailableSeats(seats, movieId)
    ensures cell == AvailableCell || cell == BookedCell
  {
    if ChartFlag(seats, movieId, l) == 0 then AvailableCell else BookedCell
  }

  /** `line` is the chart line of `row`: the row letter, a space, then one cell per seat 1..10. */
  ghost predicate ChartLine(line: string, seats: SeatTable, movieId: int, row: char)
  {
    && |line| == 2 + 4 * SeatsPerRow
    && line[..2] == [row, ' ']
    && forall c :: 1 <= c <= SeatsPerRow ==> line[4 * c - 2 .. 4 * c + 2] == ChartCell(seats, movieId, SeatLabel(row, c))
  }

  /** Builds the chart line of one row, seat by seat. */
  method SeatChartRow(seats: SeatTable, movieId: int, row: char) returns (line: string)
    ensures ChartLine(line, seats, movieId, row)
  {
    line := [row, ' '];
    for col := 1 to SeatsPerRow + 1
      invariant |line| == 4 * col - 2
      invariant line[..2] == [row, ' ']
      invariant forall c :: 1 <= c < col ==> line[4 * c - 2 .. 4 * c + 2] == ChartCell(seats, movieId, SeatLabel(row, c))
    {
      var cell := ChartCell(seats, movieId, SeatLabel(row, col));
      line := line + cell;
      assert line[4 * col - 2 .. 4 * col + 2] == cell;
    }
  }

  /** Builds the six row lines of the seat chart of a movie, rows 'A' to 'F'. */
  method SeatChart(seats: SeatTable, movieId: int) returns (lines: seq<string>)
    ensures |lines| == |Rows|
    ensures forall i :: 0 <= i < |Rows| ==> ChartLine(lines[i], seats, movieId, Rows[i])
  {
    lines := [];
    for i := 0 to |Rows|
      invariant |lines| == i
      invariant forall j :: 0 <= j < i ==> ChartLine(lines[j], seats, movieId, Rows[j])
    {
      var line := SeatChartRow(seats, movieId, Rows[i]);
      lines := lines + [line];
    }
  }

  // ----- Reservation -----

  /** The seat table after setting the booked flag of every existing row of the movie named in `labels`. */
  function MarkBooked(seats: SeatTable, movieId: int, labels: seq<string>): SeatTable
  {
    map k | k in seats :: if k.movieId == movieId && k.seatLabel in labels then true else seats[k]
  }

  lemma MarkBookedStep(seats: SeatTable, movieId: int, labels: seq<string>, l: string)
    ensures MarkBooked(seats, movieId, labels + [l]) ==
            if SeatKey(movieId, l) in seats then MarkBooked(seats, movieId, labels)[SeatKey(movieId, l) := true]
            else MarkBooked(seats, movieId, labels)
  {
  }

  /**
    Marking seats booked removes exactly those labels from the movie's available
    set, keeps every row, and leaves the rows of other movies untouched.
   */
  lemma BookedAvailability(seats: SeatTable, movieId: int, labels: seq<string>)
    ensures AvailableSeats(MarkBooked(seats, movieId, labels), movieId) == AvailableSeats(seats, movieId) - (set l | l in labels)
    ensures MarkBooked(seats, movieId, labels).Keys == seats.Keys
    ensures forall k :: k in seats && k.movieId != movieId ==> MarkBooked(seats, movieId, labels)[k] == seats[k]
  {
  }

  /** The booking row a successful reservation appends. */
  function NewBooking(bookingId: string, username: string, movieId: int, selectedSeats: seq<string>): Booking
  {
    Booking(bookingId, username, movieId, Join(selectedSeats), |selectedSeats| * UnitPrice, None, Pending)
  }

  /** Whether every requested label is an available seat of the movie. */
  predicate CanReserve(seats: SeatTable, movieId: int, selectedSeats: seq<string>)
  {
    (set l | l in selectedSeats) <= AvailableSeats(seats, movieId)
  }

  /** Once a reservation is made, any request naming one of its seats on that movie is refused. */
  lemma OverlappingRequestRefused(seats: SeatTable, movieId: int, first: seq<string>, second: seq<string>, l: string)
    requires l in first && l in second
    ensures !CanReserve(MarkBooked(seats, movieId, first), movieId, second)
  {
    BookedAvailability(seats, movieId, first);
    assert l in (set x | x in first);
    assert l !in AvailableSeats(MarkBooked(seats, movieId, first), movieId);
    assert l in (set x | x in second);
  }

  /** A request disjoint from an earlier reservation stays possible if it was possible before. */
  lemma DisjointRequestAllowed(seats: SeatTable, movieId: int, first: seq<string>, second: seq<string>)
    requires CanReserve(seats, movieId, second)
    requires forall l :: l in second ==> l !in first
    ensures CanReserve(MarkBooked(seats, movieId, first), movieId, second)
  {
  }

  /** Reservations on one movie leave every other movie's available seats unchanged. */
  lemma OtherMoviesUnaffected(seats: SeatTable, movieId: int, labels: seq<string>, other: int)
    requires other != movieId
    ensures AvailableSeats(MarkBooked(seats, movieId, labels), other) == AvailableSeats(seats, other)
  {
  }

  /** The stored booking names exactly the requested labels and charges for each of them, repeats included. */
  lemma NewBookingContents(seats: SeatTable, bookingId: string, username: string, movieId: int, selectedSeats: seq<string>)
    requires forall k :: k in seats ==> k.seatLabel in GridLabelSet()
    requires CanReserve(seats, movieId, selectedSeats)
    ensures SeatList(NewBooking(bookingId, username, movieId, selectedSeats).seats) == selectedSeats
    ensures NewBooking(bookingId, username, movieId, selectedSeats).totalPrice == |selectedSeats| * UnitPrice
  {
    forall i | 0 <= i < |selectedSeats| ensures Storable(selectedSeats[i]) {
      assert selectedSeats[i] in AvailableSeats(seats, movieId);
      GridLabelShape(selectedSeats[i]);
    }
    JoinRoundTrip(selectedSeats);
  }

  // ----- Payment -----

  function QrFilename(bookingId: string): string
  {
    "qr_" + bookingId + ".png"
  }

  /** A booking row after its payment is recorded. */
  function Paid(b: Booking, typePayment: string): Booking
  {
    b.(typePayment := Some(typePayment), paymentStatus := Completed)
  }

  /** The booking rows after recording payment on every row with the given id. */
  function MarkPaid(bs: seq<Booking>, bookingId: string, typePayment: string): seq<Booking>
  {
    seq(|bs|, i requires 0 <= i < |bs| => if bs[i].bookingId == bookingId then Paid(bs[i], typePayment) else bs[i])
  }

  // ----- Ticket validation -----

  /** Whether some booking row has the id and a completed payment. */
  function HasCompleted(bs: seq<Booking>, bookingId: string): (found: bool)
    ensures found <==> exists i :: 0 <= i < |bs| && bs[i].bookingId == bookingId && bs[i].paymentStatus == Completed
  {
    if bs == [] then false
    else (bs[0].bookingId == bookingId && bs[0].paymentStatus == Completed) || HasCompleted(bs[1..], bookingId)
  }

  /** `validate_ticket`: the verdict on the data read from a ticket's QR code. */
  function ValidateTicket(bs: seq<Booking>, qrCodeData: string): (verdict: string)
    ensures verdict == ValidTicket <==> exists i :: 0 <= i < |bs| && bs[i].bookingId == qrCodeData && bs[i].paymentStatus == Completed
    ensures verdict == ValidTicket || verdict == InvalidTicket
  {
    if HasCompleted(bs, qrCodeData) then ValidTicket else InvalidTicket
  }

  /** After payment for an id, a ticket with that id is valid iff some booking had it. */
  lemma PaymentValidates(bs: seq<Booking>, bookingId: string, typePayment: string)
    ensures ValidateTicket(MarkPaid(bs, bookingId, typePayment), bookingId) == ValidTicket <==>
            exists i :: 0 <= i < |bs| && bs[i].bookingId == bookingId
  {
    var paid := MarkPaid(bs, bookingId, typePayment);
    if exists i :: 0 <= i < |bs| && bs[i].bookingId == bookingId {
      var i :| 0 <= i < |bs| && bs[i].bookingId == bookingId;
      assert paid[i].bookingId == bookingId && paid[i].paymentStatus == Completed;
    }
  }

  /** Payment for one id does not change the verdict on any other id. */
  lemma PaymentKeepsOtherVerdicts(bs: seq<Booking>, bookingId: string, typePayment: string, other: string)
    requires other != bookingId
    ensures ValidateTicket(MarkPaid(bs, bookingId, typePayment), other) == ValidateTicket(bs, other)
  {
    var paid := MarkPaid(bs, bookingId, typePayment);
    if ValidateTicket(bs, other) == ValidTicket {
      var i :| 0 <= i < |bs| && bs[i].bookingId == other && bs[i].paymentStatus == Completed;
      assert paid[i] == bs[i];
    }
    if ValidateTicket(paid, other) == ValidTicket {
      var i :| 0 <= i < |paid| && paid[i].bookingId == other && paid[i].paymentStatus == Completed;
      assert paid[i] == bs[i];
    }
  }

  /** Payment for an id that no booking has changes no booking. */
  lemma PaymentForUnknownId(bs: seq<Booking>, bookingId: string, typePayment: string)
    requires forall i :: 0 <= i < |bs| ==> bs[i].bookingId != bookingId
    ensures MarkPaid(bs, bookingId, typePayment) == bs
  {
  }

  /** Paying again overwrites the recorded payment type; the status stays Completed. */
  lemma RepaymentOverwrites(bs: seq<Booking>, bookingId: string, first: string, second: string)
    ensures MarkPaid(MarkPaid(bs, bookingId, first), bookingId, second) == MarkPaid(bs, bookingId, second)
  {
  }

  /** A fresh reservation is Pending, so it does not make any ticket valid. */
  lemma ReservationDoesNotValidate(bs: seq<Booking>, b: Booking, qrCodeData: string)
    requires b.paymentStatus == Pending
    ensures ValidateTicket(bs + [b], qrCodeData) == ValidateTicket(bs, qrCodeData)
  {
    var bs' := bs + [b];
    if ValidateTicket(bs', qrCodeData) == ValidTicket {
      var i :| 0 <= i < |bs'| && bs'[i].bookingId == qrCodeData && bs'[i].paymentStatus == Completed;
      assert i < |bs| && bs'[i] == bs[i];
    }
    if ValidateTicket(bs, qrCodeData) == ValidTicket {
      var i :| 0 <= i < |bs| && bs[i].bookingId == qrCodeData && bs[i].paymentStatus == Completed;
      assert bs'[i] == bs[i];
    }
  }

  // ----- Consistency of the tables -----

  /** Movie ids below the next id to be issued; seat rows belong to known movies and carry grid labels. */
  ghost predicate GridOnly(movies: map<int, Movie>, nextMovieId: int, seats: SeatTable)
  {
    && (forall m :: m in movies ==> m < nextMovieId)
    && (forall k :: k in seats ==> k.movieId in movies && k.seatLabel in GridLabelSet())
  }

  /** Every booking charges the unit price for each seat it names. */
  ghost predicate Priced(bs: seq<Booking>)
  {
    forall i :: 0 <= i < |bs| ==> bs[i].totalPrice == |SeatList(bs[i].seats)| * UnitPrice
  }

  /** Every seat a booking names is a booked row of its movie. */
  ghost predicate HeldSeatsBooked(seats: SeatTable, bs: seq<Booking>)
  {
    forall i, l :: 0 <= i < |bs| && l in SeatList(bs[i].seats) ==>
      SeatKey(bs[i].movieId, l) in seats && seats[SeatKey(bs[i].movieId, l)]
  }

  /** Some booking names the seat on that seat's movie. */
  ghost predicate HeldBySome(bs: seq<Booking>, k: SeatKey)
  {
    exists i :: 0 <= i < |bs| && bs[i].movieId == k.movieId && k.seatLabel in SeatList(bs[i].seats)
  }

  /** Every booked row is named by some booking. */
  ghost predicate BookedSeatsHeld(seats: SeatTable, bs: seq<Booking>)
  {
    forall k :: k in seats && seats[k] ==> HeldBySome(bs, k)
  }

  /** No seat of a movie is named by two different bookings of that movie. */
  ghost predicate NoDoubleAllocation(bs: seq<Booking>)
  {
    forall i, j, l :: 0 <= i < j < |bs| && bs[i].movieId == bs[j].movieId && l in SeatList(bs[i].seats) ==>
      l !in SeatList(bs[j].seats)
  }

  /** What the tables keep true between operations. */
  ghost predicate Consistent(movies: map<int, Movie>, nextMovieId: int, seats: SeatTable, bs: seq<Booking>)
  {
    && GridOnly(movies, nextMovieId, seats)
    && Priced(bs)
    && HeldSeatsBooked(seats, bs)
    && BookedSeatsHeld(seats, bs)
    && NoDoubleAllocation(bs)
  }

  /** Adding a movie with its grid keeps the tables consistent. */
  lemma AddMovieKeepsConsistent(movies: map<int, Movie>, nextMovieId: int, seats: SeatTable, bs: seq<Booking>, movie: Movie)
    requires Consistent(movies, nextMovieId, seats, bs)
    ensures NoSeatsFor(seats, nextMovieId)
    ensures Consistent(movies[nextMovieId := movie], nextMovieId + 1, WithGrid(seats, nextMovieId, GridLabels()), bs)
  {
  }

  /** A reservation that passed the availability check keeps the tables consistent. */
  lemma BookKeepsConsistent(movies: map<int, Movie>, nextMovieId: int, seats: SeatTable, bs: seq<Booking>,
                            bookingId: string, username: string, movieId: int, selectedSeats: seq<string>)
    requires Consistent(movies, nextMovieId, seats, bs)
    requires CanReserve(seats, movieId, selectedSeats)
    ensures Consistent(movies, nextMovieId, MarkBooked(seats, movieId, selectedSeats),
                       bs + [NewBooking(bookingId, username, movieId, selectedSeats)])
  {
    var s' := MarkBooked(seats, movieId, selectedSeats);
    var b := NewBooking(bookingId, username, movieId, selectedSeats);
    var bs' := bs + [b];
    NewBookingContents(seats, bookingId, username, movieId, selectedSeats);
    BookedAvailability(seats, movieId, selectedSeats);
    forall i, l | 0 <= i < |bs'| && l in SeatList(bs'[i].seats)
      ensures SeatKey(bs'[i].movieId, l) in s' && s'[SeatKey(bs'[i].movieId, l)]
    {
      if i == |bs| {
        assert l in AvailableSeats(seats, movieId);
      } else {
        assert bs'[i] == bs[i];
      }
    }
    forall k | k in s' && s'[k] ensures HeldBySome(bs', k) {
      if seats[k] {
        var i :| 0 <= i < |bs| && bs[i].movieId == k.movieId && k.seatLabel in SeatList(bs[i].seats);
        assert bs'[i] == bs[i];
      } else {
        assert bs'[|bs|] == b;
      }
    }
    forall i, j, l | 0 <= i < j < |bs'| && bs'[i].movieId == bs'[j].movieId && l in SeatList(bs'[i].seats)
      ensures l !in SeatList(bs'[j].seats)
    {
      assert bs'[i] == bs[i];
      if j == |bs| {
        assert SeatKey(movieId, l) in seats && seats[SeatKey(movieId, l)];
        assert l !in AvailableSeats(seats, movieId);
      } else {
        assert bs'[j] == bs[j];
      }
    }
    assert Priced(bs') by {
      forall i | 0 <= i < |bs'| ensures bs'[i].totalPrice == |SeatList(bs'[i].seats)| * UnitPrice {
        if i < |bs| { assert bs'[i] == bs[i]; }
      }
    }
  }

  /** Recording a payment keeps the tables consistent: it changes no seat, movie or price. */
  lemma PayKeepsConsistent(movies: map<int, Movie>, nextMovieId: int, seats: SeatTable, bs: seq<Booking>,
                           bookingId: string, typePayment: string)
    requires Consistent(movies, nextMovieId, seats, bs)
    ensures Consistent(movies, nextMovieId, seats, MarkPaid(bs, bookingId, typePayment))
  {
    var bs' := MarkPaid(bs, bookingId, typePayment);
    assert forall i :: 0 <= i < |bs| ==> bs'[i].movieId == bs[i].movieId && bs'[i].seats == bs[i].seats && bs'[i].totalPrice == bs[i].totalPrice;
    forall k | k in seats && seats[k] ensures HeldBySome(bs', k) {
      var i :| 0 <= i < |bs| && bs[i].movieId == k.movieId && k.seatLabel in SeatList(bs[i].seats);
      assert bs'[i].movieId == k.movieId && k.seatLabel in SeatList(bs'[i].seats);
    }
  }
}
