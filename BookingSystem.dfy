/**
  The ticketing store: the movie, seat, booking and user tables held by one
  object, and the operations that change them. Every operation keeps the
  ledger's consistency predicate.
 */
module BookingSystem {
  import opened Wrappers
  import opened SeatLabels
  import opened SeatText
  import opened Ledger
  import opened Accounts

  class TicketSystem {
    var movies: map<int, Movie>
    /** The id the movie table hands out next (its autoincrement counter). */
    var nextMovieId: int
    var seats: SeatTable
    var bookings: seq<Booking>
    var users: Users

    ghost predicate Valid()
      reads this
    {
      Consistent(movies, nextMovieId, seats, bookings)
    }

    /** Empty tables; the first movie gets id 1. */
    constructor ()
      ensures Valid()
      ensures movies == map[] && nextMovieId == 1 && seats == map[] && bookings == [] && users == map[]
    {
      movies := map[];
      nextMovieId := 1;
      seats := map[];
      bookings := [];
      users := map[];
    }

    /** `add_movie_to_studio`: stores the movie under a fresh id and gives it seats A1..F10, all unbooked. */
    method AddMovieToStudio(studioId: int, title: string, genre: string, date: string, time: string)
      returns (movieId: int)
      requires Valid()
      modifies this
      ensures Valid()
      ensures movieId == old(nextMovieId) && movieId !in old(movies) && nextMovieId == movieId + 1
      ensures movies == old(movies)[movieId := Movie(title, genre, date, time, studioId)]
      ensures seats == WithGrid(old(seats), movieId, GridLabels())
      ensures forall l :: SeatKey(movieId, l) in seats <==> l in GridLabelSet()
      ensures AvailableSeats(seats, movieId) == GridLabelSet() && |AvailableSeats(seats, movieId)| == GridSize
      ensures forall k: SeatKey :: k.movieId != movieId ==>
                (k in seats <==> k in old(seats)) && (k in seats ==> seats[k] == old(seats)[k])
      ensures bookings == old(bookings) && users == old(users)
    {
      var movie := Movie(title, genre, date, time, studioId);
      movieId := nextMovieId;
      AddMovieKeepsConsistent(movies, nextMovieId, seats, bookings, movie);
      NewMovieGrid(seats, movieId);
      movies := movies[movieId := movie];
      nextMovieId := nextMovieId + 1;
      InsertSeatGrid(movieId);
    }

    /** Inserts an unbooked seat row for each grid label, row 'A' to 'F', seat 1 to 10. */
    method InsertSeatGrid(movieId: int)
      modifies this`seats
      ensures seats == WithGrid(old(seats), movieId, GridLabels())
    {
      for i := 0 to |Rows|
        invariant seats == WithGrid(old(seats), movieId, GridLabels()[..SeatsPerRow * i])
      {
        InsertSeatRow(movieId, i, old(seats));
      }
      assert GridLabels()[..GridSize] == GridLabels();
    }

    /** Inserts the unbooked seat rows 1 to 10 of row i, after those of the earlier rows. */
    method InsertSeatRow(movieId: int, i: nat, ghost base: SeatTable)
      requires i < |Rows|
      requires seats == WithGrid(base, movieId, GridLabels()[..SeatsPerRow * i])
      modifies this`seats
      ensures seats == WithGrid(base, movieId, GridLabels()[..SeatsPerRow * (i + 1)])
    {
      var row := Rows[i];
      for num := 1 to SeatsPerRow + 1
        invariant seats == WithGrid(base, movieId, GridLabels()[..SeatsPerRow * i + num - 1])
      {
        var seatLabel := SeatLabel(row, num);
        WithGridNext(base, movieId, i, num);
        seats := seats[SeatKey(movieId, seatLabel) := false];
      }
    }

    /**
      `book_seat`: all or nothing. If every requested label is an available seat
      of the movie, books those seats and appends a Pending booking charging the
      unit price per requested label; otherwise changes nothing.
     */
    method BookSeat(username: string, movieId: int, selectedSeats: seq<string>, bookingId: string)
      returns (r: Result<(string, int), string>)
      requires Valid()
      modifies this
      ensures Valid()
      ensures movies == old(movies) && nextMovieId == old(nextMovieId) && users == old(users)
      ensures r.Success? <==> old(CanReserve(seats, movieId, selectedSeats))
      ensures r.Failure? ==> r.error == NotAvailableMessage && seats == old(seats) && bookings == old(bookings)
      ensures r.Success? ==> r.value == (bookingId, |selectedSeats| * UnitPrice)
      ensures r.Success? ==> seats == MarkBooked(old(seats), movieId, selectedSeats)
      ensures r.Success? ==>
                AvailableSeats(seats, movieId) == old(AvailableSeats(seats, movieId)) - (set l | l in selectedSeats)
      ensures r.Success? ==> seats.Keys == old(seats).Keys
      ensures r.Success? ==> forall k :: k in old(seats) && k.movieId != movieId ==> seats[k] == old(seats)[k]
      ensures r.Success? ==> bookings == old(bookings) + [NewBooking(bookingId, username, movieId, selectedSeats)]
      ensures r.Success? ==> SeatList(bookings[|bookings| - 1].seats) == selectedSeats
    {
      if !CanReserve(seats, movieId, selectedSeats) {
        return Failure(NotAvailableMessage);
      }
      BookKeepsConsistent(movies, nextMovieId, seats, bookings, bookingId, username, movieId, selectedSeats);
      BookedAvailability(seats, movieId, selectedSeats);
      NewBookingContents(seats, bookingId, username, movieId, selectedSeats);
      UpdateSeatsBooked(movieId, selectedSeats);
      var totalPrice := |selectedSeats| * UnitPrice;
      bookings := bookings + [Booking(bookingId, username, movieId, Join(selectedSeats), totalPrice, None, Pending)];
      r := Success((bookingId, totalPrice));
    }

    /** Sets the booked flag of each named seat row of the movie, one label at a time; a missing row is skipped. */
    method UpdateSeatsBooked(movieId: int, selectedSeats: seq<string>)
      modifies this`seats
      ensures seats == MarkBooked(old(seats), movieId, selectedSeats)
    {
      assert MarkBooked(seats, movieId, []) == seats;
      for i := 0 to |selectedSeats|
        invariant seats == MarkBooked(old(seats), movieId, selectedSeats[..i])
      {
        MarkBookedStep(old(seats), movieId, selectedSeats[..i], selectedSeats[i]);
        assert selectedSeats[..i + 1] == selectedSeats[..i] + [selectedSeats[i]];
        var k := SeatKey(movieId, selectedSeats[i]);
        if k in seats {
          seats := seats[k := true];
        }
      }
      assert selectedSeats[..|selectedSeats|] == selectedSeats;
    }

    /**
      `complete_payment`: rejects a payment type outside Cash, Card, E-Wallet
      before changing anything; otherwise marks every booking with the id
      Completed with that type, then reports the QR file name, or a QR failure
      that leaves the payment recorded.
     */
    method CompletePayment(bookingId: string, typePayment: string, qrIssued: bool)
      returns (r: Result<string, PaymentError>)
      requires Valid()
      modifies this
      ensures Valid()
      ensures movies == old(movies) && nextMovieId == old(nextMovieId) && seats == old(seats) && users == old(users)
      ensures typePayment !in PaymentTypes ==> r == Failure(InvalidPaymentType) && bookings == old(bookings)
      ensures typePayment in PaymentTypes ==> bookings == MarkPaid(old(bookings), bookingId, typePayment)
      ensures typePayment in PaymentTypes && qrIssued ==> r == Success(QrFilename(bookingId))
      ensures typePayment in PaymentTypes && !qrIssued ==> r == Failure(QrCodeGenerationFailed)
      ensures typePayment in PaymentTypes ==>
                (ValidateTicket(bookings, bookingId) == ValidTicket <==>
                 exists i :: 0 <= i < |old(bookings)| && old(bookings)[i].bookingId == bookingId)
    {
      if typePayment !in PaymentTypes {
        return Failure(InvalidPaymentType);
      }
      PayKeepsConsistent(movies, nextMovieId, seats, bookings, bookingId, typePayment);
      PaymentValidates(bookings, bookingId, typePayment);
      UpdatePaymentStatus(bookingId, typePayment);
      var qrFilename := QrFilename(bookingId);
      if qrIssued {
        r := Success(qrFilename);
      } else {
        r := Failure(QrCodeGenerationFailed);
      }
    }

    /** Records the payment on every booking row whose id matches, leaving the others as they were. */
    method UpdatePaymentStatus(bookingId: string, typePayment: string)
      modifies this`bookings
      ensures bookings == MarkPaid(old(bookings), bookingId, typePayment)
    {
      ghost var paid := MarkPaid(bookings, bookingId, typePayment);
      for i := 0 to |bookings|
        invariant |bookings| == |old(bookings)|
        invariant forall j :: 0 <= j < i ==> bookings[j] == paid[j]
        invariant forall j :: i <= j < |bookings| ==> bookings[j] == old(bookings)[j]
      {
        if bookings[i].bookingId == bookingId {
          bookings := bookings[i := Paid(bookings[i], typePayment)];
        }
      }
      assert bookings == paid;
    }

    /** `sign_up`: registers a new username; an existing one is refused and nothing changes. */
    method SignUp(username: string, password: string, phone: string) returns (msg: string)
      requires Valid()
      modifies this
      ensures Valid()
      ensures movies == old(movies) && nextMovieId == old(nextMovieId) && seats == old(seats) && bookings == old(bookings)
      ensures username in old(users) ==> msg == UsernameExists && users == old(users)
      ensures username !in old(users) ==> msg == Registered && users == old(users)[username := User(password, phone)]
      ensures Login(users, username, password) <==> username !in old(users) || Login(old(users), username, password)
    {
      if username in users {
        return UsernameExists;
      }
      users := users[username := User(password, phone)];
      msg := Registered;
    }
  }
}
