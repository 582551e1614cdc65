/** The seat-selection page (`src/pages/Select/Select.jsx`): it resolves the movie,
    cinema and hall named in the route, toggles seats of its own grid (with no limit on
    their number), keeps the total price in step with the selection and hands a booking
    summary to the payment page. */
module SelectPage {
  import opened Js
  import opened Catalog
  import opened Records
  import SelectTotal

  /** `${row}${col}`: the id of the seat in column `col` of `row`. */
  function SeatId(row: string, col: nat): string {
    row + NatToString(col)
  }

  predicate IsNot(x: string, y: string) { y != x }

  /** `handleSeatClick`: a selected seat is removed, any other seat appended. */
  function Toggle(selected: seq<string>, seatId: string): (r: seq<string>)
    ensures seatId in selected ==> seatId !in r && forall x :: x in r <==> x in selected && x != seatId
    ensures seatId !in selected ==> r == selected + [seatId]
  {
    if seatId in selected then Filter(selected, (x: string) => IsNot(seatId, x))
    else selected + [seatId]
  }

  /** Toggling the seat held at position `k` of a duplicate-free selection removes exactly
      that position and keeps the other seats in their order. */
  lemma ToggleRemovesThatPosition(selected: seq<string>, k: nat)
    requires NoDuplicates(selected) && k < |selected|
    ensures Toggle(selected, selected[k]) == selected[..k] + selected[k + 1..]
  {
    FilterRemovesOne(selected, k, (x: string) => IsNot(selected[k], x));
  }

  /** Toggling a seat that was not selected and then toggling it again restores the
      selection exactly. */
  lemma ToggleTwiceFromFree(selected: seq<string>, seatId: string)
    requires seatId !in selected
    ensures Toggle(Toggle(selected, seatId), seatId) == selected
  {
    var p := (x: string) => IsNot(seatId, x);
    FilterAppend(selected, [seatId], p);
    FilterAll(selected, p);
  }

  /** Toggling a selected seat twice keeps the same seats but moves that seat to the end. */
  lemma ToggleTwiceFromSelected(selected: seq<string>, seatId: string)
    requires seatId in selected
    ensures var r := Toggle(Toggle(selected, seatId), seatId);
      (forall x :: x in r <==> x in selected) && r[|r| - 1] == seatId
  {
  }

  /** The page never creates duplicates, and nothing bounds the number of seats. */
  lemma {:induction false} ToggleKeepsDistinct(selected: seq<string>, seatId: string)
    requires NoDuplicates(selected)
    ensures NoDuplicates(Toggle(selected, seatId))
    ensures seatId !in selected ==> |Toggle(selected, seatId)| == |selected| + 1
  {
    if seatId in selected {
      FilterNoDuplicates(selected, (x: string) => IsNot(seatId, x));
    }
  }

  // ---------------------------------------------------------------------------
  // The price effect

  /** The price the forEach loop adds for one seat: VIP when its first character is a VIP row. */
  function SeatPrice(sm: SeatMap, seatId: string): int {
    if SelectTotal.RowOf(seatId) in sm.vipRows then sm.vipPrice else sm.standardPrice
  }

  /** The total the effect sets: zero without a hall or without seats, else the sum of the
      seat prices. */
  function EffectTotal(hall: Option<Hall>, seats: seq<string>): int {
    if hall.None? || |seats| == 0 then 0
    else SumOf(seats, (s: string) => SeatPrice(hall.value.seatMap, s))
  }

  /** The effect on `[selectedSeats, selectedHall]`. */
  method ComputeTotalPrice(hall: Option<Hall>, seats: seq<string>) returns (price: int)
    ensures price == EffectTotal(hall, seats)
  {
    price := 0;
    if hall.Some? && |seats| > 0 {
      var sm := hall.value.seatMap;
      var i := 0;
      while i < |seats|
        invariant 0 <= i <= |seats|
        invariant price == SumOf(seats[..i], (s: string) => SeatPrice(sm, s))
      {
        var row := if seats[i] == [] then [] else seats[i][..1];
        var isVipSeat := row in sm.vipRows;
        price := price + (if isVipSeat then sm.vipPrice else sm.standardPrice);
        assert seats[..i + 1][..i] == seats[..i];
        i := i + 1;
      }
      assert seats[..|seats|] == seats;
    }
  }

  /** The page's total and the one the order summary computes for the same hall agree. */
  lemma PageTotalAgreesWithSummary(hall: Option<Hall>, seats: seq<string>)
    ensures var summaryHall := if hall.None? then None else Some(SelectTotal.HallProp(Some(hall.value.seatMap)));
      EffectTotal(hall, seats) == SelectTotal.Total(summaryHall, seats)
  {
    if hall.None? {
      SelectTotal.TotalWithoutSeatMap(None, seats);
    } else if |seats| > 0 {
      var sm := hall.value.seatMap;
      var summaryHall := Some(SelectTotal.HallProp(Some(sm)));
      SumOfCongruent(seats, (s: string) => SeatPrice(sm, s), (s: string) => SelectTotal.PriceOf(summaryHall, s));
    }
  }

  // ---------------------------------------------------------------------------
  // The page

  /** What the page shows. */
  datatype View = Loading | Content

  function ViewOf(movie: Option<Movie>, cinema: Option<Cinema>, hall: Option<Hall>): (v: View)
    ensures v == Content <==> movie.Some? && cinema.Some? && hall.Some?
  {
    if movie.None? || cinema.None? || hall.None? then Loading else Content
  }

  /** What the lookup effect finds: the movie by the route id, the cinema by its id among
      that movie's cinemas, the hall by its id among that cinema's halls. */
  datatype Lookup = Lookup(movie: Option<Movie>, cinema: Option<Cinema>, hall: Option<Hall>)

  function LookupRoute(movies: seq<Movie>, id: Option<string>, cinemaId: Option<string>,
                       hallId: Option<string>): (r: Lookup)
    ensures r.movie == Find(movies, (x: Movie) => Some(x.id) == id)
    ensures r.cinema.Some? ==>
      r.movie.Some? && r.cinema.value in r.movie.value.cinemas && Some(r.cinema.value.id) == cinemaId
    ensures r.hall.Some? ==>
      r.cinema.Some? && r.hall.value in r.cinema.value.halls && Some(r.hall.value.id) == hallId
    ensures r.movie.Some? && r.cinema.None? ==>
      forall j :: 0 <= j < |r.movie.value.cinemas| ==> Some(r.movie.value.cinemas[j].id) != cinemaId
    ensures r.cinema.Some? && r.hall.None? ==>
      forall j :: 0 <= j < |r.cinema.value.halls| ==> Some(r.cinema.value.halls[j].id) != hallId
  {
    var m := Find(movies, (x: Movie) => Some(x.id) == id);
    if m.None? then Lookup(None, None, None)
    else
      var c := Find(m.value.cinemas, (x: Cinema) => Some(x.id) == cinemaId);
      if c.None? then Lookup(m, None, None)
      else Lookup(m, c, Find(c.value.halls, (x: Hall) => Some(x.id) == hallId))
  }

  class SelectPageState {
    const movies: seq<Movie>
    /** Route id and query parameters (`None` when a parameter is missing). */
    const id: Option<string>
    const cinemaId: Option<string>
    const hallId: Option<string>
    const time: Option<string>
    const date: Option<string>

    var selectedSeats: seq<string>
    var movie: Option<Movie>
    var selectedCinema: Option<Cinema>
    var selectedHall: Option<Hall>
    var totalPrice: int

    /** The total is always the effect's value for the current seats and hall. */
    ghost predicate Valid()
      reads this
    {
      totalPrice == EffectTotal(selectedHall, selectedSeats)
    }

    constructor(movies: seq<Movie>, id: Option<string>, cinemaId: Option<string>, hallId: Option<string>,
                time: Option<string>, date: Option<string>)
      ensures Valid()
      ensures this.movies == movies && this.id == id && this.cinemaId == cinemaId
      ensures this.hallId == hallId && this.time == time && this.date == date
      ensures selectedSeats == [] && movie == None && selectedCinema == None && selectedHall == None
      ensures totalPrice == 0
    {
      this.movies := movies;
      this.id := id;
      this.cinemaId := cinemaId;
      this.hallId := hallId;
      this.time := time;
      this.date := date;
      selectedSeats := [];
      movie := None;
      selectedCinema := None;
      selectedHall := None;
      totalPrice := 0;
    }

    /** The lookup effect: each of movie, cinema and hall is set only when it is found,
        the cinema only inside the found movie and the hall only inside the found cinema. */
    method ResolveRoute()
      requires Valid()
      modifies this`movie, this`selectedCinema, this`selectedHall, this`totalPrice
      ensures Valid()
      ensures var r := LookupRoute(movies, id, cinemaId, hallId);
        && movie == (if r.movie.Some? then r.movie else old(movie))
        && selectedCinema == (if r.cinema.Some? then r.cinema else old(selectedCinema))
        && selectedHall == (if r.hall.Some? then r.hall else old(selectedHall))
    {
      var r := LookupRoute(movies, id, cinemaId, hallId);
      if r.movie.Some? {
        movie := r.movie;
      }
      if r.cinema.Some? {
        selectedCinema := r.cinema;
      }
      if r.hall.Some? {
        selectedHall := r.hall;
      }
      totalPrice := ComputeTotalPrice(selectedHall, selectedSeats);
    }

    /** `handleSeatClick(row, col)`, followed by the price effect. */
    method ClickSeat(row: string, col: nat)
      requires Valid()
      modifies this`selectedSeats, this`totalPrice
      ensures Valid()
      ensures selectedSeats == Toggle(old(selectedSeats), SeatId(row, col))
    {
      selectedSeats := Toggle(selectedSeats, SeatId(row, col));
      totalPrice := ComputeTotalPrice(selectedHall, selectedSeats);
    }

    /** `handleProceed`: nothing for an empty selection, otherwise the booking summary. */
    method Proceed() returns (booking: Option<BookingData>)
      requires Valid()
      requires ViewOf(movie, selectedCinema, selectedHall) == Content
      ensures booking.None? <==> selectedSeats == []
      ensures booking.Some? ==>
        && booking.value.seats == selectedSeats
        && booking.value.totalAmount == EffectTotal(selectedHall, selectedSeats)
        && booking.value.movieId == movie.value.id && booking.value.movieTitle == movie.value.title
        && booking.value.cinema == selectedCinema.value.name && booking.value.hall == selectedHall.value.name
        && booking.value.date == date && booking.value.time == time
    {
      if |selectedSeats| == 0 {
        return None;
      }
      booking := Some(BookingData(movie.value.id, movie.value.title, selectedCinema.value.name,
        selectedHall.value.name, date, time, selectedSeats, totalPrice));
    }
  }
}
