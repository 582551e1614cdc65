/** The movie page (`src/pages/MovieDetail/MovieDetail.jsx`): the movie named in the
    route, the date selected by default, the row of date buttons, each hall's showtimes
    on the selected date, and the seat page a showtime leads to. */
module MovieDetail {
  import opened Js
  import opened Catalog
  import CinemaPicker

  /** `movieData.movies.find(m => m.id === id)`. */
  function FindMovie(movies: seq<Movie>, id: string): (r: Option<Movie>)
    ensures r.Some? ==> r.value in movies && r.value.id == id
    ensures r.None? <==> forall i :: 0 <= i < |movies| ==> movies[i].id != id
  {
    Find(movies, (m: Movie) => m.id == id)
  }

  /** The date of the first showtime of the first hall of the first cinema, when all
      three exist. */
  function DefaultDate(movie: Option<Movie>): (d: Option<string>)
    ensures d.Some? <==>
      movie.Some? && |movie.value.cinemas| > 0 && |movie.value.cinemas[0].halls| > 0
      && |movie.value.cinemas[0].halls[0].showtimes| > 0
    ensures d.Some? ==> d.value == movie.value.cinemas[0].halls[0].showtimes[0].date
  {
    if movie.Some? && |movie.value.cinemas| > 0 then
      var firstCinema := movie.value.cinemas[0];
      if |firstCinema.halls| > 0 then
        var firstHall := firstCinema.halls[0];
        if |firstHall.showtimes| > 0 then Some(firstHall.showtimes[0].date) else None
      else None
    else None
  }

  function ShowtimeDates(shows: seq<Showtime>): (r: seq<string>)
    ensures |r| == |shows| && forall i :: 0 <= i < |shows| ==> r[i] == shows[i].date
  {
    seq(|shows|, i requires 0 <= i < |shows| => shows[i].date)
  }

  /** Some showtime of the list is on date `d`. */
  predicate HasDate(shows: seq<Showtime>, d: string) {
    exists j :: 0 <= j < |shows| && shows[j].date == d
  }

  /** The date buttons: the distinct dates of the first cinema's first hall, sorted; no
      buttons when that hall does not exist. */
  function DateButtons(movie: Movie): (r: seq<string>)
    ensures |movie.cinemas| == 0 || |movie.cinemas[0].halls| == 0 ==> r == []
    ensures |movie.cinemas| > 0 && |movie.cinemas[0].halls| > 0 ==>
      forall d :: d in r <==> HasDate(movie.cinemas[0].halls[0].showtimes, d)
  {
    if |movie.cinemas| > 0 && |movie.cinemas[0].halls| > 0 then
      var shows := movie.cinemas[0].halls[0].showtimes;
      var dates := ShowtimeDates(shows);
      assert forall d :: d in dates <==> HasDate(shows, d) by {
        forall d | d in dates ensures HasDate(shows, d) {
          var j :| 0 <= j < |dates| && dates[j] == d;
          assert shows[j].date == d;
        }
        forall d | HasDate(shows, d) ensures d in dates {
          var j :| 0 <= j < |shows| && shows[j].date == d;
          assert dates[j] == d;
        }
      }
      DistinctSorted(dates)
    else []
  }

  /** The buttons are sorted and each date appears once. */
  lemma DateButtonsSortedDistinct(movie: Movie)
    ensures SortedBy(DateButtons(movie), StrLeq) && NoDuplicates(DateButtons(movie))
  {
    if |movie.cinemas| > 0 && |movie.cinemas[0].halls| > 0 {
      DistinctSortedStrictly(ShowtimeDates(movie.cinemas[0].halls[0].showtimes));
    }
  }

  /** The default date, when there is one, has a button. */
  lemma DefaultDateHasButton(movie: Movie)
    ensures DefaultDate(Some(movie)).Some? ==> DefaultDate(Some(movie)).value in DateButtons(movie)
  {
    if DefaultDate(Some(movie)).Some? {
      var shows := movie.cinemas[0].halls[0].showtimes;
      assert shows[0].date == DefaultDate(Some(movie)).value;
    }
  }

  predicate OnDate(selectedDate: Option<string>, st: Showtime) {
    Some(st.date) == selectedDate
  }

  /** `hall.showtimes.filter(st => st.date === selectedDate)`. */
  function HallShowtimes(hall: Hall, selectedDate: Option<string>): (r: seq<Showtime>)
    ensures forall st :: st in r <==> st in hall.showtimes && Some(st.date) == selectedDate
  {
    Filter(hall.showtimes, (st: Showtime) => OnDate(selectedDate, st))
  }

  /** The listed showtimes keep the hall's order: for a hall whose showtimes are `a` then
      `b`, the list is that of `a` followed by that of `b`. */
  lemma HallShowtimesKeepsOrder(hall: Hall, a: seq<Showtime>, b: seq<Showtime>, selectedDate: Option<string>)
    requires hall.showtimes == a + b
    ensures HallShowtimes(hall, selectedDate) ==
      HallShowtimes(hall.(showtimes := a), selectedDate) + HallShowtimes(hall.(showtimes := b), selectedDate)
  {
    FilterAppend(a, b, (st: Showtime) => OnDate(selectedDate, st));
  }

  /** Filtering twice by the same date changes nothing more. */
  lemma HallShowtimesIdempotent(hall: Hall, selectedDate: Option<string>)
    ensures HallShowtimes(hall.(showtimes := HallShowtimes(hall, selectedDate)), selectedDate)
      == HallShowtimes(hall, selectedDate)
  {
    FilterIdempotent(hall.showtimes, (st: Showtime) => OnDate(selectedDate, st));
  }

  /** On the default date the first hall of the first cinema shows its first showtime. */
  lemma DefaultDateShowsFirstShowtime(movie: Movie)
    requires DefaultDate(Some(movie)).Some?
    ensures movie.cinemas[0].halls[0].showtimes[0] in HallShowtimes(movie.cinemas[0].halls[0], DefaultDate(Some(movie)))
  {
  }

  /** The showtime button's target, a template literal with no encoding. */
  function ShowtimeUrl(movie: Movie, cinema: Cinema, hall: Hall, st: Showtime): (r: string)
    ensures "/select/" + movie.id + "?cinema=" + cinema.id + "&hall=" <= r
  {
    "/select/" + movie.id + "?cinema=" + cinema.id + "&hall=" + hall.id + "&time=" + st.time + "&date=" + st.date
  }

  /** The showtime button and the cinema panel's continue button lead to the same URL
      (apart from the percent-encoding the panel applies). */
  lemma ShowtimeUrlAgreesWithPanel(movie: Movie, cinema: Cinema, hall: Hall, st: Showtime)
    ensures ShowtimeUrl(movie, cinema, hall, st) == CinemaPicker.SelectUrl(movie.id, cinema, hall, st)
  {
    var pairs := CinemaPicker.SelectPairs(cinema, hall, st);
    var a, b, c, d := "cinema=" + cinema.id, "hall=" + hall.id, "time=" + st.time, "date=" + st.date;
    CinemaPicker.SelectPieces(cinema, hall, st);
    JoinFour(a, b, c, d, '&');
    UrlRegrouped("/select/" + movie.id, cinema.id, hall.id, st.time, st.date);
  }

  /** The template literal's pieces, regrouped as the query-string builder joins them. */
  lemma UrlRegrouped(path: string, c: string, h: string, t: string, d: string)
    ensures path + "?cinema=" + c + "&hall=" + h + "&time=" + t + "&date=" + d ==
      path + "?" + (("cinema=" + c) + ['&'] + ("hall=" + h) + ['&'] + ("time=" + t) + ['&'] + ("date=" + d))
  {
    assert "?" + "cinema=" == "?cinema=" && "&" + "hall=" == "&hall=";
    assert "&" + "time=" == "&time=" && "&" + "date=" == "&date=";
  }

  lemma JoinFour(a: string, b: string, c: string, d: string, sep: char)
    ensures Join([a, b, c, d], sep) == a + [sep] + b + [sep] + c + [sep] + d
  {
    assert [a, b, c, d][1..] == [b, c, d] && [b, c, d][1..] == [c, d] && [c, d][1..] == [d];
    assert Join([c, d], sep) == c + [sep] + d;
    assert Join([b, c, d], sep) == b + [sep] + (c + [sep] + d);
    assert Join([a, b, c, d], sep) == a + [sep] + (b + [sep] + (c + [sep] + d));
  }

  /** What the page shows. */
  datatype View = Loading | MovieNotFound | Detail(movie: Movie)

  function ViewOf(loading: bool, movie: Option<Movie>): (v: View)
    ensures loading <==> v == Loading
    ensures v == MovieNotFound <==> !loading && movie.None?
    ensures v.Detail? ==> movie == Some(v.movie)
  {
    if loading then Loading else if movie.None? then MovieNotFound else Detail(movie.value)
  }

  class MovieDetailState {
    const movie: Option<Movie>
    var loading: bool
    var selectedDate: Option<string>

    constructor(movies: seq<Movie>, id: string)
      ensures movie == FindMovie(movies, id) && loading && selectedDate == None
    {
      movie := FindMovie(movies, id);
      loading := true;
      selectedDate := None;
    }

    /** The 500 ms timer of the mount effect: loading ends and the default date, when
        there is one, is selected. */
    method TimerFires()
      modifies this
      ensures !loading
      ensures var d := DefaultDate(movie); selectedDate == if d.Some? then d else old(selectedDate)
    {
      loading := false;
      if movie.Some? && |movie.value.cinemas| > 0 {
        var firstCinema := movie.value.cinemas[0];
        if |firstCinema.halls| > 0 {
          var firstHall := firstCinema.halls[0];
          if |firstHall.showtimes| > 0 {
            selectedDate := Some(firstHall.showtimes[0].date);
          }
        }
      }
    }

    /** A date button sets the selected date to its own. */
    method ClickDate(date: string)
      modifies this
      ensures selectedDate == Some(date) && loading == old(loading)
    {
      selectedDate := Some(date);
    }
  }
}
