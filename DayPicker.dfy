/** The date strip of the seat page (`src/pages/Select/Day.jsx`): the dates on which the
    chosen cinema plays the chosen time, the date selected by default, and the day number
    read from a `DD-MM` date. */
module DayPicker {
  import opened Js
  import opened Catalog

  /** Some hall has a showtime at `time` on `date`. */
  ghost predicate Listed(halls: seq<Hall>, time: Option<string>, date: string) {
    exists i, j :: 0 <= i < |halls| && 0 <= j < |halls[i].showtimes| &&
      Some(halls[i].showtimes[j].time) == time && halls[i].showtimes[j].date == date
  }

  /** `hall.showtimes.filter(st => st.time === time).map(st => st.date)`. */
  function ShowDates(shows: seq<Showtime>, time: Option<string>): (r: seq<string>)
    ensures forall d :: d in r <==> exists j :: 0 <= j < |shows| && Some(shows[j].time) == time && shows[j].date == d
  {
    if shows == [] then []
    else
      var rest := ShowDates(shows[1..], time);
      assert forall j :: 0 < j < |shows| ==> shows[j] == shows[1..][j - 1];
      (if Some(shows[0].time) == time then [shows[0].date] else []) + rest
  }

  /** The `reduce` over the halls: their dates one hall after another. */
  function HallsDates(halls: seq<Hall>, time: Option<string>): (r: seq<string>)
    ensures forall d :: d in r <==> Listed(halls, time, d)
  {
    if halls == [] then []
    else
      var init := halls[..|halls| - 1];
      var last := halls[|halls| - 1];
      var acc := HallsDates(init, time);
      var mine := ShowDates(last.showtimes, time);
      assert forall d :: Listed(halls, time, d) ==> d in acc || d in mine by {
        forall d | Listed(halls, time, d) ensures d in acc || d in mine {
          var i, j :| 0 <= i < |halls| && 0 <= j < |halls[i].showtimes| &&
            Some(halls[i].showtimes[j].time) == time && halls[i].showtimes[j].date == d;
          if i < |init| {
            assert init[i] == halls[i];
            assert Listed(init, time, d);
          }
        }
      }
      assert forall d :: d in acc ==> Listed(halls, time, d) by {
        forall d | d in acc ensures Listed(halls, time, d) {
          var i, j :| 0 <= i < |init| && 0 <= j < |init[i].showtimes| &&
            Some(init[i].showtimes[j].time) == time && init[i].showtimes[j].date == d;
          assert halls[i] == init[i];
        }
      }
      assert forall d :: d in mine ==> Listed(halls, time, d) by {
        forall d | d in mine ensures Listed(halls, time, d) {
          var j :| 0 <= j < |last.showtimes| && Some(last.showtimes[j].time) == time && last.showtimes[j].date == d;
          assert halls[|halls| - 1] == last;
        }
      }
      acc + mine
  }

  /** `movie.cinemas.find(c => c.id === cinema)`. */
  function CinemaData(movie: Movie, cinema: Option<string>): Option<Cinema> {
    Find(movie.cinemas, (c: Cinema) => Some(c.id) == cinema)
  }

  /** `availableDates`: no dates for an unknown cinema; otherwise a date is listed exactly
      when one of the cinema's halls plays `time` on it. */
  function AvailableDates(movie: Movie, cinema: Option<string>, time: Option<string>): (r: seq<string>)
    ensures CinemaData(movie, cinema).None? ==> r == []
    ensures CinemaData(movie, cinema).Some? ==>
      forall d :: d in r <==> Listed(CinemaData(movie, cinema).value.halls, time, d)
  {
    match CinemaData(movie, cinema)
    case None => []
    case Some(c) => DistinctSorted(HallsDates(c.halls, time))
  }

  /** The listed dates are in ascending string order, each once. */
  lemma AvailableDatesSortedDistinct(movie: Movie, cinema: Option<string>, time: Option<string>)
    ensures var r := AvailableDates(movie, cinema, time);
      SortedBy(r, StrLeq) && NoDuplicates(r)
  {
    match CinemaData(movie, cinema)
    case None =>
    case Some(c) => DistinctSortedStrictly(HallsDates(c.halls, time));
  }

  /** `formatDate(dateStr).day`: `parseInt` of the text before the first `-` (`None` is `NaN`). */
  function FormatDay(dateStr: string): (r: Option<int>)
    ensures dateStr == "" ==> r.None?
  {
    ParseInt(Split(dateStr, '-')[0])
  }

  /** A `DD-MM` date built from a day number gives that day back. */
  lemma FormatDayReadsDay(day: nat, month: string)
    ensures FormatDay(NatToString(day) + "-" + month) == Some(day)
  {
    var d := NatToString(day);
    SplitPrefix(d, month, '-');
    assert d + "-" + month == d + ['-'] + month;
    ParseIntNatToString(day);
  }

  /** The component's state and what it has reported through `onDateSelect`. */
  class DayState {
    const movie: Movie
    const cinema: Option<string>
    const time: Option<string>
    var selectedDate: Option<string>
    var reported: seq<string>

    constructor(movie: Movie, cinema: Option<string>, time: Option<string>)
      ensures this.movie == movie && this.cinema == cinema && this.time == time
      ensures selectedDate == None && reported == []
    {
      this.movie := movie;
      this.cinema := cinema;
      this.time := time;
      selectedDate := None;
      reported := [];
    }

    /** `handleDateSelect`: the stored date is the one reported. */
    method HandleDateSelect(date: string)
      modifies this
      ensures selectedDate == Some(date)
      ensures reported == old(reported) + [date]
    {
      selectedDate := Some(date);
      reported := reported + [date];
    }

    /** The effect on `availableDates`: with dates and no selection, the first date is
        selected and reported; otherwise nothing happens. */
    method SelectDefault()
      modifies this
      ensures var dates := AvailableDates(movie, cinema, time);
        if |dates| > 0 && !Truthy(old(selectedDate)) then
          selectedDate == Some(dates[0]) && reported == old(reported) + [dates[0]]
        else
          selectedDate == old(selectedDate) && reported == old(reported)
    {
      var dates := AvailableDates(movie, cinema, time);
      if |dates| > 0 && !Truthy(selectedDate) {
        HandleDateSelect(dates[0]);
      }
    }
  }

  /** The default date is the earliest listed one. */
  lemma DefaultIsEarliest(movie: Movie, cinema: Option<string>, time: Option<string>)
    ensures var dates := AvailableDates(movie, cinema, time);
      forall d :: d in dates ==> StrLeq(dates[0], d)
  {
    AvailableDatesSortedDistinct(movie, cinema, time);
    var dates := AvailableDates(movie, cinema, time);
    forall d | d in dates ensures StrLeq(dates[0], d) {
      var k :| 0 <= k < |dates| && dates[k] == d;
      if k == 0 { StrLeqTotal(d, d); }
    }
  }
}
