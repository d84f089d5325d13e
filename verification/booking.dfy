/**
 * The booking core of the ticketing application: an in-memory stand-in for
 * the Flight/Airplane/Ticket/FlightRating tables and the handlers that
 * read and write them (`purchase`, `purchase_round`, `rate_flight`).
 * Each handler is one atomic sequential step.
 */
module Booking {
  import opened Optional
  import opened Records
  import SeatMap
  import opened Availability
  import opened RatingGate

  datatype PurchaseOutcome =
    | Purchased
    | FlightNotFound   // no such leg, or its airplane is unknown (HTTP 404)
    | SeatTaken        // "that seat was just taken" (HTTP 400)

  datatype RoundTripOutcome =
    | BothPurchased
    | OnwardSeatTaken  // reported first when both seats are taken
    | ReturnSeatTaken

  class TicketStore {
    /** Each known leg with the seat count of the airplane that flies it. */
    var flights: map<Leg, int>
    /** The Ticket table, in insertion order; a ticket's id is its position. */
    var tickets: seq<Ticket>
    /** The FlightRating table. */
    var ratings: seq<Rating>

    constructor (flights: map<Leg, int>)
      ensures this.flights == flights && tickets == [] && ratings == []
    {
      this.flights := flights;
      tickets := [];
      ratings := [];
    }

    /**
     * The seat page of one leg: None when the leg is unknown, otherwise the
     * labels of its seat map that no ticket on the leg holds, in map order.
     */
    function AvailableSeats(leg: Leg): (r: Option<seq<string>>)
      reads this
      ensures r.None? <==> leg !in flights
      ensures r.Some? ==> forall s :: s in r.value <==>
                            s in SeatMap.SeatMap(flights[leg], SeatMap.PerRow) && !Taken(tickets, leg, s)
      ensures r.Some? ==> IsSubsequence(r.value, SeatMap.SeatMap(flights[leg], SeatMap.PerRow))
      ensures r.Some? ==> NoDuplicates(r.value)
    {
      if leg !in flights then None
      else
        var all := SeatMap.SeatMap(flights[leg], SeatMap.PerRow);
        var occupied := OccupiedSeats(tickets, leg);
        SeatMap.SeatMapDistinct(flights[leg], SeatMap.PerRow);
        AvailableIsSubsequence(all, occupied);
        AvailableNoDuplicates(all, occupied);
        Some(Available(all, occupied))
    }

    /**
     * Single-leg purchase (POST): look the leg up, make the advisory check
     * that the seat is free on that leg, then insert the ticket. The seat
     * label is not checked against the seat map.
     */
    method Purchase(customer: string, leg: Leg, seat: string, card: Card)
      returns (outcome: PurchaseOutcome)
      modifies this`tickets
      ensures leg !in flights ==> outcome == FlightNotFound && tickets == old(tickets)
      ensures leg in flights && Taken(old(tickets), leg, seat) ==>
                outcome == SeatTaken && tickets == old(tickets)
      ensures leg in flights && !Taken(old(tickets), leg, seat) ==>
                outcome == Purchased && tickets == old(tickets) + [Ticket(customer, leg, seat, card)]
      ensures SeatsUnique(old(tickets)) ==> SeatsUnique(tickets)
      ensures RatingsBacked(old(tickets), ratings) ==> RatingsBacked(tickets, ratings)
    {
      if leg !in flights {
        return FlightNotFound;
      }
      if Taken(tickets, leg, seat) {
        return SeatTaken;
      }
      var ticket := Ticket(customer, leg, seat, card);
      if SeatsUnique(tickets) {
        AppendKeepsUnique(tickets, ticket);
      }
      if RatingsBacked(tickets, ratings) {
        RatingsBackedGrow(tickets, [ticket], ratings);
      }
      tickets := tickets + [ticket];
      outcome := Purchased;
    }

    /**
     * Round-trip purchase (POST): check the onward seat, then the return
     * seat, then insert both tickets, onward first. The legs are not looked
     * up, and nothing compares the two (leg, seat) pairs with each other.
     */
    method PurchaseRound(customer: string, onward: Leg, seatOnward: string,
                         ret: Leg, seatReturn: string, card: Card)
      returns (outcome: RoundTripOutcome)
      modifies this`tickets
      ensures Taken(old(tickets), onward, seatOnward) ==>
                outcome == OnwardSeatTaken && tickets == old(tickets)
      ensures !Taken(old(tickets), onward, seatOnward) && Taken(old(tickets), ret, seatReturn) ==>
                outcome == ReturnSeatTaken && tickets == old(tickets)
      ensures !Taken(old(tickets), onward, seatOnward) && !Taken(old(tickets), ret, seatReturn) ==>
                outcome == BothPurchased
                && tickets == old(tickets) + [Ticket(customer, onward, seatOnward, card),
                                              Ticket(customer, ret, seatReturn, card)]
      ensures outcome == BothPurchased && SeatsUnique(old(tickets)) ==>
                (SeatsUnique(tickets) <==> (onward != ret || seatOnward != seatReturn))
      ensures outcome != BothPurchased ==> tickets == old(tickets)
      ensures RatingsBacked(old(tickets), ratings) ==> RatingsBacked(tickets, ratings)
    {
      if Taken(tickets, onward, seatOnward) {
        return OnwardSeatTaken;
      }
      if Taken(tickets, ret, seatReturn) {
        return ReturnSeatTaken;
      }
      var first := Ticket(customer, onward, seatOnward, card);
      var second := Ticket(customer, ret, seatReturn, card);
      if SeatsUnique(tickets) {
        AppendTwoKeepsUnique(tickets, first, second);
      }
      if RatingsBacked(tickets, ratings) {
        RatingsBackedGrow(tickets, [first, second], ratings);
      }
      tickets := tickets + [first, second];
      outcome := BothPurchased;
    }

    /**
     * Rating a flight (POST): the ticket must be the requester's and its
     * leg must have departed by `now`; then one rating is stored for the
     * ticket's own leg.
     */
    method RateFlight(ticketId: nat, requester: string, now: Timestamp,
                      stars: string, comment: string)
      returns (r: Result<Rating, RateError>)
      modifies this`ratings
      ensures r.Err? <==> CheckRating(tickets, ticketId, requester, now).Err?
      ensures r.Err? ==> r.error == CheckRating(tickets, ticketId, requester, now).error
                         && ratings == old(ratings)
      ensures r.Ok? ==> r.value == Rating(requester, tickets[ticketId].leg, stars, comment)
                        && r.value.leg.departure <= now
                        && ratings == old(ratings) + [r.value]
      ensures RatingsBacked(tickets, old(ratings)) ==> RatingsBacked(tickets, ratings)
    {
      match CheckRating(tickets, ticketId, requester, now)
      case Err(e) =>
        r := Err(e);
      case Ok(ticket) =>
        var rating := Rating(requester, ticket.leg, stars, comment);
        if RatingsBacked(tickets, ratings) {
          RatingsBackedAdd(tickets, ratings, ticketId, requester, now, stars, comment);
        }
        ratings := ratings + [rating];
        r := Ok(rating);
    }
  }

  /** Booking the same seat of a leg twice: the second purchase is refused. */
  method SameSeatTwice(card: Card)
  {
    var leg := Leg("Jet Blue", "915", 1700000000);
    var store := new TicketStore(map[leg := 13]);
    var first := store.Purchase("ann@example.com", leg, "1A", card);
    assert first == Purchased;
    assert store.tickets[0].leg == leg && store.tickets[0].seat == "1A";
    var second := store.Purchase("bob@example.com", leg, "1A", card);
    assert second == SeatTaken;
    var third := store.Purchase("bob@example.com", leg, "1B", card);
    assert third == Purchased && |store.tickets| == 2;
  }

  /**
   * A round trip whose onward and return choices name the same leg and seat
   * passes both checks and stores two tickets for one seat.
   */
  method SameLegAndSeatOnBothWays(card: Card)
  {
    var leg := Leg("Jet Blue", "915", 1700000000);
    var store := new TicketStore(map[leg := 13]);
    var outcome := store.PurchaseRound("ann@example.com", leg, "1A", leg, "1A", card);
    assert outcome == BothPurchased;
    assert !SeatsUnique(store.tickets);
  }
}
