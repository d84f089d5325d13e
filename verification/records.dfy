/**
 * The rows of the Ticket and FlightRating tables that the booking core
 * reads and writes, with the database replaced by values.
 */
module Records {

  /** A point in time; departure times and "now" are compared as numbers. */
  type Timestamp = int

  /** One flight leg: the composite key (airline name, flight number, departure). */
  datatype Leg = Leg(airline: string, flight: string, departure: Timestamp)

  /** The payment columns of a ticket, stored as the purchase form sent them. */
  datatype Card = Card(cardType: string, number: string, expiration: string, nameOnCard: string)

  /** A Ticket row: owner, leg, seat label and payment data. */
  datatype Ticket = Ticket(customer: string, leg: Leg, seat: string, card: Card)

  /** A FlightRating row. The rating and comment are stored as the form sent them. */
  datatype Rating = Rating(customer: string, leg: Leg, stars: string, comment: string)

  /** Some ticket on `leg` already holds `seat` (the advisory `SELECT 1`). */
  predicate Taken(tickets: seq<Ticket>, leg: Leg, seat: string)
    ensures Taken(tickets, leg, seat) <==> exists t :: t in tickets && t.leg == leg && t.seat == seat
  {
    exists i | 0 <= i < |tickets| :: tickets[i].leg == leg && tickets[i].seat == seat
  }

  /** The central invariant: no two tickets hold the same seat on the same leg. */
  ghost predicate SeatsUnique(tickets: seq<Ticket>)
  {
    forall i, j :: 0 <= i < j < |tickets| ==>
      !(tickets[i].leg == tickets[j].leg && tickets[i].seat == tickets[j].seat)
  }

  /**
   * Appending one ticket to a store that satisfies the invariant keeps it
   * exactly when the ticket's seat is not yet taken on its leg.
   */
  lemma AppendKeepsUnique(tickets: seq<Ticket>, t: Ticket)
    requires SeatsUnique(tickets)
    ensures SeatsUnique(tickets + [t]) <==> !Taken(tickets, t.leg, t.seat)
  {
    var after := tickets + [t];
    if Taken(tickets, t.leg, t.seat) {
      var i :| 0 <= i < |tickets| && tickets[i].leg == t.leg && tickets[i].seat == t.seat;
      assert after[i] == tickets[i] && after[|tickets|] == t;
    } else {
      forall i, j | 0 <= i < j < |after|
        ensures !(after[i].leg == after[j].leg && after[i].seat == after[j].seat)
      {
        if j == |tickets| {
          assert after[i] == tickets[i];
        }
      }
    }
  }

  /**
   * Appending two tickets whose seats are both free keeps the invariant
   * exactly when the two tickets differ in leg or in seat.
   */
  lemma AppendTwoKeepsUnique(tickets: seq<Ticket>, a: Ticket, b: Ticket)
    requires SeatsUnique(tickets)
    requires !Taken(tickets, a.leg, a.seat) && !Taken(tickets, b.leg, b.seat)
    ensures SeatsUnique(tickets + [a, b]) <==> (a.leg != b.leg || a.seat != b.seat)
  {
    AppendKeepsUnique(tickets, a);
    var mid := tickets + [a];
    assert tickets + [a, b] == mid + [b];
    if a.leg != b.leg || a.seat != b.seat {
      forall i | 0 <= i < |mid|
        ensures !(mid[i].leg == b.leg && mid[i].seat == b.seat)
      {
        if i < |tickets| {
          assert mid[i] == tickets[i];
        }
      }
    } else {
      assert mid[|tickets|] == a;
    }
    AppendKeepsUnique(mid, b);
  }
}
