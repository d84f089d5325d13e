# Seat inventory of the airline ticketing application

This project models the seat-inventory core of a Flask airline ticketing
application (`app.py`). The web, session and SQL layers are removed. The
Flight/Airplane, Ticket and FlightRating tables become fields of one
in-memory `TicketStore` object. The model covers:

- **Seat map** (`SeatMap`): `generate_seat_labels` turns an airplane's seat
  count into row-major labels `1A`, `1B`, ..., six per row, columns A-F.
  Labels are strings: the decimal row number followed by the column letter.
- **Availability** (`Availability`, `TicketStore.AvailableSeats`): the
  labels of the seat map that no ticket on the leg holds, in seat-map order.
- **Booking** (`Booking.TicketStore`): single-leg `purchase` (leg lookup,
  advisory "seat taken" check, insert) and `purchase_round` (onward check,
  return check, two inserts). Each is one atomic sequential step. The
  central invariant is `SeatsUnique`: no two tickets share
  (airline, flight, departure, seat).
- **Rating gate** (`RatingGate`, `TicketStore.RateFlight`): a ticket may be
  rated only by its owner and only once its departure is not later than
  "now". The rating is stored against the ticket's own leg.
- **Choice text** (`Choice`): `parse_choice` splits `airline|flight|departure`
  into three fields and turns `_` into spaces. The same rewrite is used on
  the departure part of the purchase URL.

Timestamps are integers. The database assigns `ticket_id` itself; as a
modelling choice, a ticket's id here is its position in the ticket table
(0-based, with no gaps), which identifies it uniquely since the model never
deletes tickets.

Where the intended design and the code differ, the model follows the code:

- The purchase handlers never check that the requested seat label belongs
  to the leg's seat map. Any label is accepted if no ticket on that leg holds
  it. So "every occupied label is in the seat map" is not an invariant of
  the code, and the model does not claim it.
- The round-trip POST never looks up its two legs. The code shows no
  constraint that would refuse a ticket for an unknown leg, and the
  in-memory store has none, so in the model `PurchaseRound` can store
  tickets for a leg the flight table does not know. Whether the real
  database refuses them depends on a foreign key the code does not show.
- The round-trip POST never compares the onward (leg, seat) with the return
  (leg, seat). When both are the same, both checks pass and, in the model,
  two tickets for one seat are stored (in the real database only if no
  unique key on the Ticket table refuses the second insert; the code shows
  none). `PurchaseRound` states the invariant is kept exactly
  when the two pairs differ. `Records.AppendTwoKeepsUnique` proves this for
  all inputs. The client method `Booking.SameLegAndSeatOnBothWays` shows the
  duplicate.
- A seat count of zero or less gives an empty seat map, as `range` does.
  It is not reported as a validation error.
- The seat check is an advisory `SELECT` before the insert. The code shows
  no uniqueness constraint on (airline, flight, departure, seat), and the
  in-memory store has none. The connection is opened with the driver's
  defaults (autocommit off), so the two inserts of a round trip are
  committed together by one `commit()`. In this sequential model every
  handler runs without interference and every insert succeeds, so a round
  trip stores both tickets or neither.

## Model

| member | source | states |
|---|---|---|
| `SeatMap.GenerateSeatLabels` | app.py:12-19 | the loop's result is the seat map of `numSeats`: one label per position, in position order, and empty when the count is not positive |
| `SeatMap.SeatMapAt` | app.py:14-19 | the seat map has exactly `numSeats` labels (0 when negative), and position k holds the label of position k |
| `SeatMap.SeatLabel` | app.py:16-18 | a label is at least two characters long and ends in one of the column letters A-F |
| `SeatMap.LabelRoundTrip` | app.py:15-18 | the label of position i reads back as row i / perRow + 1 and column i % perRow, so the map is row-major |
| `SeatMap.SeatLabelInjective` | app.py:15-18 | two positions with the same label are the same position |
| `SeatMap.SeatMapDistinct` | app.py:15-18 | no label occurs twice in a seat map |
| `SeatMap.ThirteenSeats` | app.py:12-19 | 13 seats give 1A..1F, 2A..2F, 3A |
| `SeatMap.Decimal` | app.py:18 | the row text is a non-empty string of decimal digits with no leading zero (it starts with '0' only for 0), one digit long exactly for rows below 10 |
| `SeatMap.DecimalRoundTrip` | app.py:18 | the row text reads back as the row number |
| `Records.AppendKeepsUnique` | app.py:372-397 | inserting one ticket keeps seat uniqueness if and only if its seat is not already taken on its leg |
| `Records.AppendTwoKeepsUnique` | app.py:520-559 | inserting two tickets whose seats are both free keeps seat uniqueness if and only if they differ in leg or in seat |
| `Records.Taken` | app.py:372-379 | the advisory seat check (also used twice at app.py:520-542) on (leg, seat); `AppendKeepsUnique` proves an insert keeps seat uniqueness exactly when it is false, and `OccupiedSeats` proves a label is occupied exactly when it is true |
| `Availability.OccupiedSeats` | app.py:345-355 | a label is occupied on a leg exactly when some ticket on that leg holds it |
| `Availability.Available` | app.py:355-361 | a label is free exactly when it is in the seat map and not occupied; the free list is no longer than the map |
| `Availability.AvailableIsSubsequence` | app.py:361 | the free list is the seat map with the occupied labels dropped, the rest kept in order |
| `Availability.AvailableNoDuplicates` | app.py:454-459 | a seat map without repeats gives a free list without repeats |
| `Booking.TicketStore.AvailableSeats` | app.py:427-461 | an unknown leg gives None; otherwise the free seats are exactly the map's labels no ticket on the leg holds, in map order, without repeats |
| `Booking.TicketStore.Purchase` | app.py:340-399 | unknown leg: not found, no ticket written; seat taken on the leg: refused, store unchanged; otherwise exactly one ticket (customer, leg, seat, card) appended and nothing else changed; seat uniqueness and rating backing are kept |
| `Booking.TicketStore.PurchaseRound` | app.py:520-561 | onward seat taken: refused first, nothing written; return seat taken: refused, nothing written; otherwise the onward and then the return ticket are appended; seat uniqueness survives exactly when the two (leg, seat) pairs differ |
| `RatingGate.CheckRating` | app.py:603-619 | a missing or foreign ticket is refused as not yours; an own ticket departing after now is refused as a future flight; otherwise the ticket itself is returned, and a departure equal to now is allowed |
| `RatingGate.EligibilityPersists` | app.py:618-619 | a ticket that may be rated at some time may be rated at every later time |
| `RatingGate.EligibilityStableUnderPurchases` | app.py:603-609 | buying more tickets does not change whether an existing ticket may be rated |
| `RatingGate.RatingsBackedGrow` | app.py:388-397 | inserting tickets keeps every rating backed by a ticket of its customer on its leg |
| `RatingGate.RatingsBackedAdd` | app.py:621-630 | storing the rating of an eligible ticket keeps every rating backed by a ticket |
| `Booking.TicketStore.RateFlight` | app.py:595-635 | refuses exactly when the gate refuses, with the same error, storing nothing; otherwise appends one rating for the ticket's leg, departed by now |
| `Choice.UnderscoresToSpaces` | app.py:322 | same length, no underscore left, every underscore becomes a space and every other character is kept |
| `Choice.Split` | app.py:423 | splitting gives at least one piece and at most one more than the text has characters; `SplitPieces` and `SplitJoin` pin its pieces |
| `Choice.SplitPieces` | app.py:423 | splitting on a separator gives one more piece than there are separators, and no piece holds the separator |
| `Choice.SplitJoin` | app.py:423 | joining the pieces with the separator gives back the text |
| `Choice.ParseChoice` | app.py:422-425 | parsing succeeds exactly when the text holds two bars; the fields hold no bar and the departure no underscore |
| `Choice.ParseChoiceOfFields` | app.py:422-425 | airline, flight and departure joined by bars, with no bar inside a field, parse back to those fields, underscores of the departure turned into spaces |
| `Choice.RoundTripChoices` | app.py:464-472 | a missing choice is refused first; both parsed choices are returned exactly when both are present and well formed |

## Left out

- Flask routing, templates, the `session` object and the `login_required`
  decorator. The customer identity is an explicit parameter.
- MD5 password hashing, login and registration.
- Insert failures: a key or constraint violation raised by an `INSERT`, and
  the rollback of the uncommitted implicit transaction when the connection
  is dropped, are not modelled. In the model every insert succeeds.
- Taken: labels and leg keys are compared exactly, character by
  character. The database compares them under the column's collation,
  which for MySQL's default collations ignores letter case, so a ticket
  for "1A" would also refuse "1a" there but not in the model. The Python
  filter of the free seats compares exactly, as the model does.
- All SQL text and connection handling (`db.py`, `hello_db.py`). The tables
  are the fields of `TicketStore`. `flights` holds the result of the
  Flight-Airplane join: each leg with its airplane's seat count.
- Concurrency. Two requests can both pass the advisory check and then both
  insert. The model runs each handler as one atomic step, so it cannot show
  this race.
- `purchase_date` (`CURDATE()`) is not stored, because it reads the clock.
- Converting departure text into a timestamp (`strptime`, and MySQL's own
  comparison of the URL text with a DATETIME). Legs carry integer
  timestamps. Because of this, the round-trip GET page is modelled as its
  two parts: `RoundTripChoices` and `AvailableSeats`. The step that turns a
  parsed choice into a `Leg` is not modelled.
- `GenerateSeatLabels`: the model requires 1 <= per_row <= 6. In Python
  0 raises ZeroDivisionError, values above 6 raise IndexError once a column
  index reaches 6, and negative values wrap the index and give rows <= 0.
  Every caller (app.py:360, 458) uses the default 6.
- `ParseChoice`: a choice without exactly two bars raises ValueError (an
  HTTP 500) in Python. Here it is `None`, and `RoundTripChoices` reports it
  as `MalformedChoice`.
- The GET branches that only render a page: `purchase` rendering its free
  seats is `AvailableSeats`; `rate_flight` rendering its form is
  `CheckRating`.
- Flight search, staff pages, status changes, airplanes, rating averages
  and reports. These are query builders and date-library calls.
- Nothing prevents a customer from rating the same ticket more than once,
  and the model adds no such check. The rating value and comment are not
  validated in the code or here.
