/**
 * Who may rate a flight (`rate_flight`): the ticket must be the
 * requester's own and its leg must have departed.
 */
module RatingGate {
  import opened Optional
  import opened Records

  datatype RateError =
    | NotYourTicket   // no ticket with that id belongs to the requester
    | FutureFlight    // the leg departs after "now"

  /**
   * The ticket that `requester` may rate at time `now`, looked up by its id
   * (its position in the ticket table). A departure equal to `now` is allowed.
   */
  function CheckRating(tickets: seq<Ticket>, ticketId: nat, requester: string, now: Timestamp)
    : (r: Result<Ticket, RateError>)
    ensures r.Ok? <==> ticketId < |tickets| && tickets[ticketId].customer == requester
                       && tickets[ticketId].leg.departure <= now
    ensures r.Ok? ==> r.value == tickets[ticketId]
    ensures r == Err(NotYourTicket) <==> ticketId >= |tickets| || tickets[ticketId].customer != requester
    ensures r == Err(FutureFlight) <==> ticketId < |tickets| && tickets[ticketId].customer == requester
                                        && now < tickets[ticketId].leg.departure
  {
    if ticketId >= |tickets| || tickets[ticketId].customer != requester then Err(NotYourTicket)
    else if tickets[ticketId].leg.departure > now then Err(FutureFlight)
    else Ok(tickets[ticketId])
  }

  /** Once a ticket may be rated it stays rateable as time goes on. */
  lemma EligibilityPersists(tickets: seq<Ticket>, ticketId: nat, requester: string,
                            now: Timestamp, later: Timestamp)
    requires now <= later && CheckRating(tickets, ticketId, requester, now).Ok?
    ensures CheckRating(tickets, ticketId, requester, later)
            == CheckRating(tickets, ticketId, requester, now)
  {
  }

  /** Adding tickets never changes the answer for a ticket that already exists. */
  lemma EligibilityStableUnderPurchases(tickets: seq<Ticket>, more: seq<Ticket>,
                                        ticketId: nat, requester: string, now: Timestamp)
    requires ticketId < |tickets|
    ensures CheckRating(tickets + more, ticketId, requester, now)
            == CheckRating(tickets, ticketId, requester, now)
  {
  }

  /** Some ticket of `customer` is on `leg`. */
  predicate HoldsTicket(tickets: seq<Ticket>, customer: string, leg: Leg)
  {
    exists i | 0 <= i < |tickets| :: tickets[i].customer == customer && tickets[i].leg == leg
  }

  /** Every rating is backed by a ticket of the same customer on the same leg. */
  ghost predicate RatingsBacked(tickets: seq<Ticket>, ratings: seq<Rating>)
  {
    forall k :: 0 <= k < |ratings| ==> HoldsTicket(tickets, ratings[k].customer, ratings[k].leg)
  }

  /** Buying more tickets keeps every rating backed. */
  lemma RatingsBackedGrow(tickets: seq<Ticket>, more: seq<Ticket>, ratings: seq<Rating>)
    requires RatingsBacked(tickets, ratings)
    ensures RatingsBacked(tickets + more, ratings)
  {
    forall k | 0 <= k < |ratings|
      ensures HoldsTicket(tickets + more, ratings[k].customer, ratings[k].leg)
    {
      assert HoldsTicket(tickets, ratings[k].customer, ratings[k].leg);
      var i :| 0 <= i < |tickets| && tickets[i].customer == ratings[k].customer
               && tickets[i].leg == ratings[k].leg;
      assert (tickets + more)[i] == tickets[i];
    }
  }

  /** Adding the rating of an eligible ticket keeps every rating backed. */
  lemma RatingsBackedAdd(tickets: seq<Ticket>, ratings: seq<Rating>, ticketId: nat,
                         requester: string, now: Timestamp, stars: string, comment: string)
    requires RatingsBacked(tickets, ratings)
    requires CheckRating(tickets, ticketId, requester, now).Ok?
    ensures RatingsBacked(tickets,
              ratings + [Rating(requester, tickets[ticketId].leg, stars, comment)])
  {
  }
}
