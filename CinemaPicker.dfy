/** The cinema panel of the movie page (`src/pages/MovieDetail/Cinema.jsx`): a cinema,
    one of its halls and one of that hall's showtimes are chosen in turn, and continuing
    opens the seat page for that showtime. Object identity (`===` on the chosen cinema,
    hall and showtime) is modelled by positions in the movie's lists. */
module CinemaPicker {
  import opened Js
  import opened Catalog

  /** `!movie.cinemas || movie.cinemas.length === 0`: the "Coming Soon" panel. */
  predicate ComingSoon(movie: Movie) {
    |movie.cinemas| == 0
  }

  /** What the panel shows: the "Coming Soon" notice, or the list of cinemas to choose from. */
  datatype Panel = ComingSoonPanel | CinemaList(cinemas: seq<Cinema>)

  function PanelOf(movie: Movie): (p: Panel)
    ensures p == ComingSoonPanel <==> movie.cinemas == []
    ensures p.CinemaList? ==> p.cinemas == movie.cinemas && |p.cinemas| > 0
  {
    if ComingSoon(movie) then ComingSoonPanel else CinemaList(movie.cinemas)
  }

  /** `/select/<id>?cinema=...&hall=...&time=...&date=...`. */
  function SelectUrl(id: string, cinema: Cinema, hall: Hall, showtime: Showtime): (r: string)
    ensures "/select/" + id + "?" <= r
  {
    "/select/" + id + "?" + QueryString(SelectPairs(cinema, hall, showtime))
  }

  function SelectPairs(cinema: Cinema, hall: Hall, showtime: Showtime): seq<(string, string)> {
    [("cinema", cinema.id), ("hall", hall.id), ("time", showtime.time), ("date", showtime.date)]
  }

  /** When no value holds `&`, the query of the URL splits back into the cinema id, the
      hall id, and the showtime's time and date, in that order. */
  lemma SelectUrlCarriesChoice(id: string, cinema: Cinema, hall: Hall, showtime: Showtime)
    requires '&' !in cinema.id && '&' !in hall.id && '&' !in showtime.time && '&' !in showtime.date
    ensures var url := SelectUrl(id, cinema, hall, showtime);
      && url[..8 + |id|] == "/select/" + id
      && url[8 + |id|] == '?'
      && Split(url[9 + |id|..], '&') ==
           ["cinema=" + cinema.id, "hall=" + hall.id, "time=" + showtime.time, "date=" + showtime.date]
  {
    var pairs := SelectPairs(cinema, hall, showtime);
    QueryStringSplits(pairs);
    SelectPieces(cinema, hall, showtime);
    var url := SelectUrl(id, cinema, hall, showtime);
    assert url == ("/select/" + id + "?") + QueryString(pairs);
    assert url[9 + |id|..] == QueryString(pairs);
  }

  /** The `key=value` pieces of the query, one per choice. */
  lemma SelectPieces(cinema: Cinema, hall: Hall, showtime: Showtime)
    ensures QueryPieces(SelectPairs(cinema, hall, showtime)) ==
      ["cinema=" + cinema.id, "hall=" + hall.id, "time=" + showtime.time, "date=" + showtime.date]
  {
    var pairs := SelectPairs(cinema, hall, showtime);
    var pieces := QueryPieces(pairs);
    assert |pieces| == 4;
    assert "cinema" + "=" == "cinema=" && "hall" + "=" == "hall=";
    assert "time" + "=" == "time=" && "date" + "=" == "date=";
    assert pieces[0] == "cinema" + "=" + cinema.id && pieces[1] == "hall" + "=" + hall.id;
    assert pieces[2] == "time" + "=" + showtime.time && pieces[3] == "date" + "=" + showtime.date;
  }

  class CinemaState {
    const movie: Movie
    const id: string
    /** Positions of the chosen cinema in `movie.cinemas`, of the chosen hall in that
        cinema's halls and of the chosen showtime in that hall's showtimes. */
    var selectedCinema: Option<nat>
    var selectedHall: Option<nat>
    var selectedShowtime: Option<nat>

    /** A hall is chosen only under a chosen cinema, a showtime only under a chosen hall,
        and every position lies in its list. */
    ghost predicate Valid()
      reads this
    {
      && (selectedCinema.Some? ==> selectedCinema.value < |movie.cinemas|)
      && (selectedHall.Some? ==>
            selectedCinema.Some? && selectedHall.value < |movie.cinemas[selectedCinema.value].halls|)
      && (selectedShowtime.Some? ==>
            selectedHall.Some? &&
            selectedShowtime.value < |movie.cinemas[selectedCinema.value].halls[selectedHall.value].showtimes|)
    }

    constructor(movie: Movie, id: string)
      ensures Valid()
      ensures this.movie == movie && this.id == id
      ensures selectedCinema == None && selectedHall == None && selectedShowtime == None
    {
      this.movie := movie;
      this.id := id;
      selectedCinema := None;
      selectedHall := None;
      selectedShowtime := None;
    }

    /** A click on cinema `c` (also on the one already chosen) clears hall and showtime. */
    method ClickCinema(c: nat)
      requires Valid() && c < |movie.cinemas|
      modifies this
      ensures Valid()
      ensures selectedCinema == Some(c) && selectedHall == None && selectedShowtime == None
    {
      selectedCinema := Some(c);
      selectedHall := None;
      selectedShowtime := None;
    }

    /** A click on hall `h` of the chosen cinema (the only halls shown): the chosen hall is
        released, any other chosen; either way the showtime is cleared. */
    method ClickHall(h: nat)
      requires Valid() && selectedCinema.Some? && h < |movie.cinemas[selectedCinema.value].halls|
      modifies this
      ensures Valid()
      ensures selectedCinema == old(selectedCinema)
      ensures selectedHall == (if old(selectedHall) == Some(h) then None else Some(h))
      ensures selectedShowtime == None
    {
      selectedHall := if selectedHall == Some(h) then None else Some(h);
      selectedShowtime := None;
    }

    /** A click on showtime `s` of the chosen hall (the only showtimes shown). */
    method ClickShowtime(s: nat)
      requires Valid() && selectedHall.Some?
      requires s < |movie.cinemas[selectedCinema.value].halls[selectedHall.value].showtimes|
      modifies this
      ensures Valid()
      ensures selectedCinema == old(selectedCinema) && selectedHall == old(selectedHall)
      ensures selectedShowtime == Some(s)
    {
      selectedShowtime := Some(s);
    }

    /** The continue button is shown exactly when all three are chosen. */
    predicate CanContinue()
      reads this
    {
      selectedCinema.Some? && selectedHall.Some? && selectedShowtime.Some?
    }

    /** `handleContinue`: the seat page URL of the chosen showtime, or nothing. */
    method Continue() returns (url: Option<string>)
      requires Valid()
      ensures url.Some? <==> CanContinue()
      ensures url.Some? ==>
        var c := movie.cinemas[selectedCinema.value];
        var h := c.halls[selectedHall.value];
        url.value == SelectUrl(id, c, h, h.showtimes[selectedShowtime.value])
    {
      if selectedCinema.Some? && selectedHall.Some? && selectedShowtime.Some? {
        var c := movie.cinemas[selectedCinema.value];
        var h := c.halls[selectedHall.value];
        url := Some(SelectUrl(id, c, h, h.showtimes[selectedShowtime.value]));
      } else {
        url := None;
      }
    }
  }
}
