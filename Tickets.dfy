/** The "My Tickets" page (`src/pages/Tickets/Tickets.jsx`): stored tickets shown newest
    purchase first, each card with its date moved up to 2024 at the earliest and its seat
    count. Parsing `purchaseDate` into an instant is passed in as `instant`. */
module Tickets {
  import opened Js
  import opened Records

  /** The comparator `new Date(b.purchaseDate) - new Date(a.purchaseDate)`, read as "`a`
      may come before `b`": `a` was bought no earlier than `b`. */
  predicate NewerOrSame(instant: string -> int, a: Ticket, b: Ticket) {
    instant(b.purchaseDate) <= instant(a.purchaseDate)
  }

  /** `storedTickets.sort(...)`, a stable sort by that comparator. */
  function NewestFirst(tickets: seq<Ticket>, instant: string -> int): (r: seq<Ticket>)
    ensures multiset(r) == multiset(tickets) && |r| == |tickets|
  {
    SortBy(tickets, (a: Ticket, b: Ticket) => NewerOrSame(instant, a, b))
  }

  /** The sorted list is newest first. */
  lemma NewestFirstSorted(tickets: seq<Ticket>, instant: string -> int)
    ensures var r := NewestFirst(tickets, instant);
      forall i, j :: 0 <= i < j < |r| ==> instant(r[j].purchaseDate) <= instant(r[i].purchaseDate)
  {
    var leq := (a: Ticket, b: Ticket) => NewerOrSame(instant, a, b);
    assert Total(leq);
    assert Transitive(leq);
    SortBySorted(tickets, leq);
  }

  /** The first ticket shown is the newest one stored. */
  lemma NewestFirstHeadIsNewest(tickets: seq<Ticket>, instant: string -> int, t: Ticket)
    requires t in tickets
    ensures var r := NewestFirst(tickets, instant);
      |r| > 0 && instant(t.purchaseDate) <= instant(r[0].purchaseDate)
  {
    var r := NewestFirst(tickets, instant);
    NewestFirstSorted(tickets, instant);
    assert t in multiset(r);
    var k :| 0 <= k < |r| && r[k] == t;
  }

  /** The displayed year: one before 2024 becomes 2024, any other stays. */
  function DisplayYear(year: int): (y: int)
    ensures y >= 2024
    ensures year >= 2024 ==> y == year
    ensures year < 2024 ==> y == 2024
  {
    if year < 2024 then 2024 else year
  }

  /** The seat count line: `{n} {n > 1 ? 'seats' : 'seat'}`. */
  function SeatCountLabel(t: Ticket): (line: (nat, string))
    ensures line.0 == |t.seats|
    ensures line.1 == "seats" <==> |t.seats| > 1
    ensures line.1 == "seat" <==> |t.seats| <= 1
  {
    var numberOfSeats := |t.seats|;
    (numberOfSeats, if numberOfSeats > 1 then "seats" else "seat")
  }

  /** What the page shows. */
  datatype View = Spinner | EmptyState | TicketList(tickets: seq<Ticket>)

  function ViewOf(loading: bool, tickets: seq<Ticket>): (v: View)
    ensures v == Spinner <==> loading
    ensures v == EmptyState <==> !loading && tickets == []
    ensures v.TicketList? ==> v.tickets == tickets && |tickets| > 0
  {
    if loading then Spinner else if |tickets| == 0 then EmptyState else TicketList(tickets)
  }

  const LoadFailed := "Failed to load tickets. Please try again later."

  class TicketsPage {
    var tickets: seq<Ticket>
    var loading: bool
    var error: Option<string>

    constructor()
      ensures tickets == [] && loading && error == None
    {
      tickets := [];
      loading := true;
      error := None;
    }

    /** `fetchTickets`: the stored list sorted newest first, or (storage unreadable, `None`)
        the error; loading ends either way. */
    method FetchTickets(stored: Option<seq<Ticket>>, instant: string -> int)
      modifies this
      ensures !loading
      ensures stored.Some? ==> tickets == NewestFirst(stored.value, instant) && error == old(error)
      ensures stored.None? ==> tickets == old(tickets) && error == Some(LoadFailed)
    {
      if stored.Some? {
        tickets := NewestFirst(stored.value, instant);
      } else {
        error := Some(LoadFailed);
      }
      loading := false;
    }
  }
}
