# QRMovieBook seat-booking ledger in Dafny

This project models the seat-booking ledger of QRMovieBook, a terminal demo for booking movie tickets. Users sign up and log in. Each movie gets a fixed grid of 60 seats, `A1` to `F10`. A reservation books seats and creates a `Pending` booking at 50000 per seat. Payment turns the booking `Completed` and issues a QR file. Validating a QR ticket checks for a `Completed` booking with that id.

The SQLite tables become plain Dafny state:

- `seats`: a map from `SeatKey(movieId, seatLabel)` to the booked flag;
- `bookings`: a sequence of `Booking` rows;
- `users`: a map from username to `User`;
- `movies`: a map from id to `Movie`, plus the next id to hand out (the table's autoincrement counter).

Modules:

- `SeatLabels` builds the grid labels: the row letter, then the seat number written in decimal as `str` writes it. It proves the 60 labels are distinct, are exactly the row × number pairs, and contain no comma.
- `SeatText` models `','.join` of the requested labels. It also reads the stored text back (`Split`/`SeatList`), with a round-trip lemma, so that invariants can talk about which seats a booking row names.
- `Ledger` holds the rules as functions over the tables: availability, the seat-chart cell, the table updates of reservation and payment, and ticket validation. It also holds `Consistent`, the invariant the tables keep, and one lemma per update proving that update preserves it.
- `BookingSystem.TicketSystem` is the store object. Its methods change the tables with loops shaped like the source's loops: the nested loop over rows `ABCDEF` and seats 1–10, the per-seat `UPDATE` of `executemany`, and the `UPDATE` over every booking row with a matching id. Each public operation (`AddMovieToStudio`, `BookSeat`, `CompletePayment`, `SignUp`) requires and keeps `Valid()`, which is `Consistent`; the loop helpers (`InsertSeatGrid`, `InsertSeatRow`, `UpdateSeatsBooked`, `UpdatePaymentStatus`) state only their effect on the one field they modify.
- `Accounts` is the user registry. `Location` is `get_cinema_location`.

Inputs that come from outside the core are method parameters:

- the booking id, which the source takes from `time.time()`;
- whether QR issuance succeeded.

The source's quirks are kept:

- the request is a list, so a repeated label is charged twice;
- booking ids are not unique, and payment marks every row with the id;
- paying for an unknown id changes nothing and still reports the file name;
- a QR failure is reported after the `Completed` status has been recorded;
- paying a `Completed` booking again overwrites its payment type (`RepaymentOverwrites`).

`Consistent` holds only because operations run one after another. The source checks availability and then updates in a separate step, which is a race if calls overlap.

The model follows the code where it is looser than a booking system might be:

- the request may be empty, or name labels outside the grid; such labels are refused as unavailable;
- a refusal is the single message `Some seats are not available`, with no list of the seats that were taken;
- payment for an id that no booking has is not an error;
- booking ids are the current time in whole seconds, so two bookings in the same second share an id, although the comment at main.py:264 calls the id unique.

## Model

| member | source | states |
|---|---|---|
| `SeatLabels.SeatLabel` | main.py:203 | a seat's label is its row letter followed by its number, as `f"{row}{num}"` writes it |
| `SeatLabels.Decimal` | main.py:203 | the seat number's text is a non-empty string of decimal digits with no leading zero |
| `SeatLabels.GridLabelEnds` | main.py:201-203 | the first label generated is `A1` and the last is `F10` |
| `SeatLabels.DecimalRoundTrip` | main.py:203 | reading the seat number's text back gives the number, so different numbers get different labels |
| `SeatLabels.GridLabels` | main.py:201-203 | the generated order holds exactly 60 labels |
| `SeatLabels.GridLabelAt` | main.py:201-203 | seat `num` of row `i` is label `row i letter + num`, at position 10·i + num − 1 of the insertion order |
| `SeatLabels.GridLabelsDistinct` | main.py:201-204 | no label is inserted twice for a movie |
| `SeatLabels.GridLabelSetSize` | main.py:200-205 | a movie's grid has exactly 60 distinct labels |
| `SeatLabels.GridLabelSetMembers` | main.py:201-203 | a label is in the grid iff it is a row letter A–F followed by a number 1–10 |
| `SeatLabels.GridLabelShape` | main.py:203 | grid labels are non-empty and contain no comma |
| `SeatText.Join` | main.py:267 | the labels in request order with a comma between each two, as `','.join` gives them; empty for an empty request |
| `SeatText.JoinRoundTrip` | main.py:267 | the comma-joined seat text of a booking reads back as the requested list, in order and with repeats |
| `Ledger.AvailableSeats` | main.py:220-222 | a label is available iff the movie has that seat row and it is not booked |
| `Ledger.WithGrid` | main.py:200-204 | the seat table with one unbooked row added under the movie for each listed label |
| `Ledger.NewMovieGrid` | main.py:195-205 | a movie without seats gets exactly the 60 grid labels, all available, and other movies' rows are unchanged |
| `Ledger.ChartFlag` | main.py:232-245 | the flag the chart reads for a label: the row's booked flag as 0 or 1, and 1 when the movie has no such seat |
| `Ledger.ChartCell` | main.py:232-248 | a chart cell is `[ ] ` iff the label is an available seat of the movie; booked or missing labels show `[X] ` |
| `Ledger.SeatChartRow` | main.py:241-249 | a chart line is the row letter, a space, then the cell of each seat 1 to 10 in order |
| `Ledger.SeatChart` | main.py:234-249 | the chart has one line per row A to F, each built by the cell rule |
| `Ledger.CanReserve` | main.py:254-256 | the request passes iff every label in it is an available seat of the movie |
| `Ledger.MarkBooked` | main.py:260-261 | the seat table with every existing row of the movie whose label is requested set booked; other rows and missing labels are left alone |
| `Ledger.BookedAvailability` | main.py:260-261 | marking seats booked removes exactly those labels from the movie's available set and leaves other movies' rows as they were |
| `Ledger.OverlappingRequestRefused` | main.py:254-257 | after a reservation, a request naming one of its seats on the same movie fails the availability check |
| `Ledger.DisjointRequestAllowed` | main.py:254-261 | a request disjoint from an earlier reservation still passes the check if it passed before |
| `Ledger.OtherMoviesUnaffected` | main.py:260-261 | reserving on one movie does not change any other movie's available seats |
| `Ledger.NewBooking` | main.py:264-267 | the inserted row: the given id, username and movie, the joined labels, 50000 per requested label, no payment type, status Pending |
| `Ledger.NewBookingContents` | main.py:264-267 | the new booking row names exactly the requested labels and costs 50000 per requested label |
| `Ledger.QrFilename` | main.py:288 | the QR file name is `qr_` followed by the booking id and `.png` |
| `Ledger.Paid` | main.py:279-282 | a booking row with status Completed and the given payment type, its other columns unchanged |
| `Ledger.MarkPaid` | main.py:279-282 | the bookings with every row whose id matches paid and every other row unchanged |
| `Ledger.HasCompleted` | main.py:298-299 | the lookup finds a row iff some booking has the id and status Completed |
| `Ledger.ValidateTicket` | main.py:297-300 | the verdict is `Valid Ticket` iff some booking has the id and status Completed, otherwise `Invalid Ticket` |
| `Ledger.PaymentValidates` | main.py:279-282 | after payment for an id, the ticket for that id is valid iff some booking has that id |
| `Ledger.PaymentKeepsOtherVerdicts` | main.py:279-282 | payment for one id does not change the verdict on any other id |
| `Ledger.PaymentForUnknownId` | main.py:279-282 | payment for an id no booking has leaves the bookings unchanged |
| `Ledger.RepaymentOverwrites` | main.py:279-282 | paying again for an id overwrites the payment type, and the status stays Completed |
| `Ledger.ReservationDoesNotValidate` | main.py:80 | appending a Pending booking does not change any ticket verdict |
| `Ledger.AddMovieKeepsConsistent` | main.py:195-205 | adding a movie and its grid keeps the tables consistent, and the new id has no seats yet |
| `Ledger.BookKeepsConsistent` | main.py:253-269 | a reservation that passed the check keeps consistency: the price matches the seats, held seats are booked, booked seats are held, and no seat is held by two bookings |
| `Ledger.PayKeepsConsistent` | main.py:272-285 | recording a payment keeps the tables consistent |
| `Accounts.Login` | main.py:140-143 | true iff the username is registered with exactly this password |
| `Accounts.LoginAfterRegistration` | main.py:131-143 | a newly registered user can log in with exactly the password given |
| `Accounts.RegistrationKeepsOthers` | main.py:131-143 | registering one user does not change any other user's login |
| `Location.GetCinemaLocation` | main.py:186-192 | auto-detection gives `Bandung`; otherwise the given city, or the city-required message if the city is missing or empty; never empty |
| `BookingSystem.TicketSystem.constructor` | main.py:14-85 | the tables start empty and the first movie id is 1 |
| `BookingSystem.TicketSystem.AddMovieToStudio` | main.py:195-205 | stores the movie under the next id and adds the 60 unbooked grid seats for it; other movies' seats and all other tables are unchanged |
| `BookingSystem.TicketSystem.InsertSeatGrid` | main.py:200-205 | the nested row × number loop inserts exactly the grid's rows, all unbooked |
| `BookingSystem.TicketSystem.InsertSeatRow` | main.py:202-204 | the inner loop inserts seats 1 to 10 of one row |
| `BookingSystem.TicketSystem.BookSeat` | main.py:253-269 | succeeds iff every requested label is available. On failure it returns the message and changes nothing. On success it books exactly those seats, so availability is the old set minus the request; it appends the Pending booking and returns (id, count × 50000) |
| `BookingSystem.TicketSystem.UpdateSeatsBooked` | main.py:260-261 | the per-seat update sets the booked flag of each named row of the movie and skips rows that do not exist |
| `BookingSystem.TicketSystem.CompletePayment` | main.py:272-294 | an invalid payment type fails before any change. Otherwise every booking with the id becomes Completed with that type, then the result is `qr_<id>.png`, or a QR failure with the payment kept |
| `BookingSystem.TicketSystem.UpdatePaymentStatus` | main.py:279-282 | the update marks every row with the id paid and leaves the others unchanged |
| `BookingSystem.TicketSystem.SignUp` | main.py:131-137 | an existing username is refused and users stay unchanged; otherwise the user is added and can log in |

## Left out

- SQLite connection, cursor, table creation and commits: these are in-memory maps and sequences here.
- The `Database error` path of `complete_payment`: an in-memory update cannot fail.
- QR image rendering (`generate_qr_code`): a foreign library. Only its success or failure is modelled, as an input.
- Camera scanning and its 30-second wall-clock timeout (`scan_qr_code_with_camera`): this is device I/O and time.
- `time.time()` as the source of booking ids: the id is a parameter, and its uniqueness is not claimed because the source does not guarantee it.
- Catalog seeding (`setup_locations_and_movies`, `movies_data`): one-off fixed data. Only the per-movie seat grid that `add_movie_to_studio` creates is modelled.
- `display_movies`, `display_movies_by_cinema`, `print_ticket`, `terminal_menu`: SQL joins, console output and `input()` flows.
- The header, separator and legend lines that `display_seat_chart` prints: console output. Only the row lines and the cell rule are modelled.
- CSV export: file I/O.
- Concurrency: the source is single-threaded, so each method is one sequential step and no locking is modelled.
- Python exceptions are `Failure` values of a `Result`, and the string-or-tuple return of `book_seat` is a `Result` as well.
- The `is_booked` column is a boolean here. SQL `NULL` usernames are not modelled, and neither is a seats table holding two rows with the same label for one movie: `add_movie_to_studio` never creates such rows, because every movie gets a fresh id.
