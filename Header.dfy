/** The site header (`src/pages/Home/Header.jsx`): the stored tickets behind the ticket
    bell with its badge and delete buttons, and the movie search box. */
module Header {
  import opened Js
  import opened Records

  /** The fields of a catalogue movie the header reads; absent ones are `None`. */
  datatype SearchMovie = SearchMovie(id: string, title: Option<string>, genre: Option<string>,
                                     description: Option<string>)

  /** `movie.field ? String(movie.field).toLowerCase() : ''`. */
  function Field(f: Option<string>): (r: string)
    ensures |r| == |OrEmpty(f)|
    ensures f.None? ==> r == ""
    ensures Lower(r) == r
  {
    LowerIdempotent(OrEmpty(f));
    Lower(OrEmpty(f))
  }

  /** A movie matches when the lowercased query, untrimmed, occurs in its lowercased
      title, genre or description. */
  predicate Matches(query: string, m: SearchMovie)
    ensures query == "" ==> Matches(query, m)
    ensures m.title.Some? && Lower(query) == Lower(m.title.value) ==> Matches(query, m)
  {
    var q := Lower(query);
    IncludesEmpty(Field(m.title));
    IncludesSelf(Field(m.title));
    Includes(Field(m.title), q) || Includes(Field(m.genre), q) || Includes(Field(m.description), q)
  }

  const MaxResults: nat := 5

  /** The matching movies, in catalogue order. */
  function Matching(movies: seq<SearchMovie>, query: string): (r: seq<SearchMovie>)
    ensures forall m :: m in r <==> m in movies && Matches(query, m)
  {
    Filter(movies, (m: SearchMovie) => Matches(query, m))
  }

  /** Matching keeps catalogue order: the matches of a catalogue with more movies appended
      are its own matches followed by the matches among the appended ones. */
  lemma MatchingKeepsOrder(a: seq<SearchMovie>, b: seq<SearchMovie>, query: string)
    ensures Matching(a + b, query) == Matching(a, query) + Matching(b, query)
  {
    FilterAppend(a, b, (m: SearchMovie) => Matches(query, m));
  }

  /** So the results shown for a catalogue with at least five matches in its first part are
      the first five of those. */
  lemma SearchShowsEarliestMatches(a: seq<SearchMovie>, b: seq<SearchMovie>, query: string)
    requires Trim(query) != "" && |Matching(a, query)| >= MaxResults
    ensures Search(a + b, query) == Matching(a, query)[..MaxResults]
  {
    MatchingKeepsOrder(a, b, query);
    assert (Matching(a, query) + Matching(b, query))[..MaxResults] == Matching(a, query)[..MaxResults];
  }

  /** The debounced search: nothing for a blank query, else the first five matches. */
  function Search(movies: seq<SearchMovie>, query: string): (r: seq<SearchMovie>)
    ensures Trim(query) == "" ==> r == []
    ensures |r| <= MaxResults
    ensures forall m :: m in r ==> m in movies && Matches(query, m)
    ensures Trim(query) != "" ==> r <= Matching(movies, query)
    ensures Trim(query) != "" && |Matching(movies, query)| <= MaxResults ==> r == Matching(movies, query)
  {
    if Trim(query) == "" then []
    else
      var all := Matching(movies, query);
      if |all| <= MaxResults then all
      else
        var r := all[..MaxResults];
        assert forall m :: m in r ==> m in all;
        r
  }

  /** With at most five matches, every matching movie is found. */
  lemma SearchFindsAllFewMatches(movies: seq<SearchMovie>, query: string, m: SearchMovie)
    requires Trim(query) != ""
    requires |Matching(movies, query)| <= MaxResults
    requires m in movies && Matches(query, m)
    ensures m in Search(movies, query)
  {
  }

  /** With more than five matches exactly five are shown. */
  lemma SearchCapsAtFive(movies: seq<SearchMovie>, query: string)
    requires Trim(query) != ""
    requires |Matching(movies, query)| > MaxResults
    ensures |Search(movies, query)| == MaxResults
  {
  }

  /** An empty (but present) field matches only the empty query, like a missing one. */
  lemma MissingFieldIsEmpty(query: string)
    ensures Field(None) == "" && Field(Some("")) == ""
    ensures Includes(Field(None), Lower(query)) <==> query == ""
  {
    if query == "" { IncludesEmpty(""); }
  }

  /** The case of the query does not matter. */
  lemma MatchesIgnoresQueryCase(query: string, m: SearchMovie)
    ensures Matches(Lower(query), m) <==> Matches(query, m)
  {
    LowerIdempotent(query);
  }

  /** `movieData.movies.find(movie => movie.id === movieId) || null`. */
  function GetMovieData(movies: seq<SearchMovie>, movieId: string): (r: Option<SearchMovie>)
    ensures r.Some? ==> r.value in movies && r.value.id == movieId
    ensures r.None? <==> forall i :: 0 <= i < |movies| ==> movies[i].id != movieId
  {
    Find(movies, (m: SearchMovie) => m.id == movieId)
  }

  predicate IdIsNot(id: string, t: Ticket) { t.id != id }

  /** `tickets.filter(ticket => ticket.id !== ticketId)`. */
  function DeleteTicket(tickets: seq<Ticket>, ticketId: string): (r: seq<Ticket>)
    ensures forall t :: t in r <==> t in tickets && t.id != ticketId
  {
    Filter(tickets, (t: Ticket) => IdIsNot(ticketId, t))
  }

  /** Deleting an id no ticket has leaves the list as it was. */
  lemma DeleteAbsent(tickets: seq<Ticket>, ticketId: string)
    requires forall i :: 0 <= i < |tickets| ==> tickets[i].id != ticketId
    ensures DeleteTicket(tickets, ticketId) == tickets
  {
    FilterAll(tickets, (t: Ticket) => IdIsNot(ticketId, t));
  }

  /** Deleting twice is deleting once. */
  lemma DeleteIdempotent(tickets: seq<Ticket>, ticketId: string)
    ensures DeleteTicket(DeleteTicket(tickets, ticketId), ticketId) == DeleteTicket(tickets, ticketId)
  {
    FilterIdempotent(tickets, (t: Ticket) => IdIsNot(ticketId, t));
  }

  /** Deleting keeps the other tickets in their order: deleting from a list with a ticket
      appended is deleting from the list, then appending it (or not). */
  lemma DeleteKeepsOrder(tickets: seq<Ticket>, t: Ticket, ticketId: string)
    ensures DeleteTicket(tickets + [t], ticketId) ==
      DeleteTicket(tickets, ticketId) + (if t.id != ticketId then [t] else [])
  {
    FilterAppend(tickets, [t], (x: Ticket) => IdIsNot(ticketId, x));
  }

  /** The ticket bell's badge: the number of tickets, hidden when there are none. */
  function Badge(tickets: seq<Ticket>): (b: Option<nat>)
    ensures b.None? <==> tickets == []
    ensures b.Some? ==> b.value == |tickets|
  {
    if |tickets| > 0 then Some(|tickets|) else None
  }

  /** The header's state, with the `tickets` entry of storage. */
  class HeaderState {
    const movies: seq<SearchMovie>
    var tickets: seq<Ticket>
    var stored: seq<Ticket>
    var searchQuery: string
    var filteredMovies: seq<SearchMovie>
    var showTickets: bool
    var showSearch: bool

    constructor(movies: seq<SearchMovie>, stored: seq<Ticket>)
      ensures this.movies == movies && this.stored == stored
      ensures tickets == [] && searchQuery == "" && filteredMovies == [] && !showTickets && !showSearch
    {
      this.movies := movies;
      this.stored := stored;
      tickets := [];
      searchQuery := "";
      filteredMovies := [];
      showTickets := false;
      showSearch := false;
    }

    /** `loadTickets`, on mount and on a storage event. */
    method LoadTickets()
      modifies this`tickets
      ensures tickets == stored
    {
      tickets := stored;
    }

    /** `handleDeleteTicket`: the list and its stored copy lose the ticket. */
    method HandleDeleteTicket(ticketId: string)
      modifies this`tickets, this`stored
      ensures tickets == DeleteTicket(old(tickets), ticketId) && stored == tickets
    {
      var updated := DeleteTicket(tickets, ticketId);
      stored := updated;
      tickets := updated;
    }

    method SetQuery(query: string)
      modifies this`searchQuery
      ensures searchQuery == query
    {
      searchQuery := query;
    }

    /** The 300 ms debounce fires: the results are those of the current query. */
    method SearchFires()
      modifies this`filteredMovies
      ensures filteredMovies == Search(movies, searchQuery)
    {
      filteredMovies := Search(movies, searchQuery);
    }

    /** `handleTicketClick`: the ticket's page, and the list closes. */
    method HandleTicketClick(t: Ticket) returns (url: string)
      modifies this`showTickets
      ensures url == "/tickets/" + t.id && !showTickets
    {
      url := "/tickets/" + t.id;
      showTickets := false;
    }

    /** `handleMovieClick`: the movie's page; query, results and search box are cleared. */
    method HandleMovieClick(movieId: string) returns (url: string)
      modifies this`searchQuery, this`showSearch, this`filteredMovies
      ensures url == "/movie/" + movieId
      ensures searchQuery == "" && filteredMovies == [] && !showSearch
    {
      url := "/movie/" + movieId;
      searchQuery := "";
      showSearch := false;
      filteredMovies := [];
    }
  }
}
