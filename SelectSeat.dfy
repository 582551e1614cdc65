/** The seat grid of the seat-selection page (`src/pages/Select/Seat.jsx`): it looks the
    hall up in the catalogue, polls the booked seats of the showtime, lets the user
    toggle up to eight free seats and reports every accepted selection. */
module SelectSeat {
  import opened Js
  import opened Catalog

  const MaxSeats: nat := 8

  const MissingHallMessage := "Missing required hall information"
  const MovieNotFoundMessage := "Movie not found"
  const CinemaNotFoundMessage := "Cinema not found"
  const HallNotFoundMessage := "Hall not found"
  const ShowtimeMissingMessage := "Selected showtime not available"
  const MissingBookingMessage := "Missing required booking information"
  const MaxSeatsMessage := "Maximum 8 seats can be selected at once"

  /** The `hall` prop: the hall and showtime the grid is drawn for; any field may be absent. */
  datatype HallProp = HallProp(
    id: Option<string>,
    movieId: Option<string>,
    cinema: Option<string>,
    date: Option<string>,
    time: Option<string>)

  /** The prop is present and names a movie, a cinema, a date and a time (all truthy). */
  predicate HasBookingInfo(hall: Option<HallProp>) {
    && hall.Some?
    && Truthy(hall.value.movieId) && Truthy(hall.value.cinema)
    && Truthy(hall.value.date) && Truthy(hall.value.time)
  }

  predicate ShowtimeListed(x: Hall, date: Option<string>, time: Option<string>) {
    exists st :: st in x.showtimes && Some(st.date) == date && Some(st.time) == time
  }

  predicate ConfigMessage(msg: string) {
    msg == MissingHallMessage || msg == MovieNotFoundMessage || msg == CinemaNotFoundMessage
    || msg == HallNotFoundMessage || msg == ShowtimeMissingMessage
  }

  /** `loadSeatConfig`: the seat map of the hall, found through the first movie, cinema and
      hall whose ids match, provided the hall lists the showtime; otherwise the first
      failing step's message. */
  function LoadSeatConfig(hall: Option<HallProp>, movies: seq<Movie>): (r: Result<SeatMap>)
    ensures r == Err(MissingHallMessage) <==> !HasBookingInfo(hall)
    ensures r.Err? ==> ConfigMessage(r.message)
    ensures HasBookingInfo(hall) && (forall m :: m in movies ==> Some(m.id) != hall.value.movieId) ==>
      r == Err(MovieNotFoundMessage)
    ensures r.Ok? ==> exists m, c, x ::
      && m in movies && c in m.cinemas && x in c.halls
      && Some(m.id) == hall.value.movieId && Some(c.id) == hall.value.cinema && Some(x.id) == hall.value.id
      && ShowtimeListed(x, hall.value.date, hall.value.time)
      && r.value == x.seatMap
  {
    if !HasBookingInfo(hall) then Err(MissingHallMessage)
    else
      var h := hall.value;
      match Find(movies, (m: Movie) => Some(m.id) == h.movieId)
      case None => Err(MovieNotFoundMessage)
      case Some(movie) =>
        match Find(movie.cinemas, (c: Cinema) => Some(c.id) == h.cinema)
        case None => Err(CinemaNotFoundMessage)
        case Some(cinema) =>
          match Find(cinema.halls, (x: Hall) => Some(x.id) == h.id)
          case None => Err(HallNotFoundMessage)
          case Some(hallData) =>
            if ShowtimeListed(hallData, h.date, h.time) then Ok(hallData.seatMap)
            else Err(ShowtimeMissingMessage)
  }

  /** When the first movie, cinema and hall with the prop's ids exist and the hall lists
      the showtime, the grid is drawn from that hall's seat map. */
  lemma LoadSeatConfigFindsHall(hall: Option<HallProp>, movies: seq<Movie>, i: nat, j: nat, k: nat)
    requires HasBookingInfo(hall)
    requires i < |movies| && Some(movies[i].id) == hall.value.movieId
    requires forall i' :: 0 <= i' < i ==> Some(movies[i'].id) != hall.value.movieId
    requires j < |movies[i].cinemas| && Some(movies[i].cinemas[j].id) == hall.value.cinema
    requires forall j' :: 0 <= j' < j ==> Some(movies[i].cinemas[j'].id) != hall.value.cinema
    requires k < |movies[i].cinemas[j].halls| && Some(movies[i].cinemas[j].halls[k].id) == hall.value.id
    requires forall k' :: 0 <= k' < k ==> Some(movies[i].cinemas[j].halls[k'].id) != hall.value.id
    requires ShowtimeListed(movies[i].cinemas[j].halls[k], hall.value.date, hall.value.time)
    ensures LoadSeatConfig(hall, movies) == Ok(movies[i].cinemas[j].halls[k].seatMap)
  {
    var h := hall.value;
    FindFirst(movies, (m: Movie) => Some(m.id) == h.movieId, i);
    var cs := movies[i].cinemas;
    FindFirst(cs, (c: Cinema) => Some(c.id) == h.cinema, j);
    var hs := cs[j].halls;
    FindFirst(hs, (x: Hall) => Some(x.id) == h.id, k);
  }

  /** A movie that is in the catalogue but does not show at the prop's cinema is reported
      as "Cinema not found", not as a missing hall or showtime. */
  lemma LoadSeatConfigMissingCinema(hall: Option<HallProp>, movies: seq<Movie>, i: nat)
    requires HasBookingInfo(hall)
    requires i < |movies| && Some(movies[i].id) == hall.value.movieId
    requires forall i' :: 0 <= i' < i ==> Some(movies[i'].id) != hall.value.movieId
    requires forall c :: c in movies[i].cinemas ==> Some(c.id) != hall.value.cinema
    ensures LoadSeatConfig(hall, movies) == Err(CinemaNotFoundMessage)
  {
    FindFirst(movies, (m: Movie) => Some(m.id) == hall.value.movieId, i);
  }

  /** A hall that the found cinema does not have is reported as "Hall not found". */
  lemma LoadSeatConfigMissingHall(hall: Option<HallProp>, movies: seq<Movie>, i: nat, j: nat)
    requires HasBookingInfo(hall)
    requires i < |movies| && Some(movies[i].id) == hall.value.movieId
    requires forall i' :: 0 <= i' < i ==> Some(movies[i'].id) != hall.value.movieId
    requires j < |movies[i].cinemas| && Some(movies[i].cinemas[j].id) == hall.value.cinema
    requires forall j' :: 0 <= j' < j ==> Some(movies[i].cinemas[j'].id) != hall.value.cinema
    requires forall x :: x in movies[i].cinemas[j].halls ==> Some(x.id) != hall.value.id
    ensures LoadSeatConfig(hall, movies) == Err(HallNotFoundMessage)
  {
    FindFirst(movies, (m: Movie) => Some(m.id) == hall.value.movieId, i);
    FindFirst(movies[i].cinemas, (c: Cinema) => Some(c.id) == hall.value.cinema, j);
  }

  /** A found hall that does not list the prop's date and time is reported as "Selected
      showtime not available". */
  lemma LoadSeatConfigMissingShowtime(hall: Option<HallProp>, movies: seq<Movie>, i: nat, j: nat, k: nat)
    requires HasBookingInfo(hall)
    requires i < |movies| && Some(movies[i].id) == hall.value.movieId
    requires forall i' :: 0 <= i' < i ==> Some(movies[i'].id) != hall.value.movieId
    requires j < |movies[i].cinemas| && Some(movies[i].cinemas[j].id) == hall.value.cinema
    requires forall j' :: 0 <= j' < j ==> Some(movies[i].cinemas[j'].id) != hall.value.cinema
    requires k < |movies[i].cinemas[j].halls| && Some(movies[i].cinemas[j].halls[k].id) == hall.value.id
    requires forall k' :: 0 <= k' < k ==> Some(movies[i].cinemas[j].halls[k'].id) != hall.value.id
    requires !ShowtimeListed(movies[i].cinemas[j].halls[k], hall.value.date, hall.value.time)
    ensures LoadSeatConfig(hall, movies) == Err(ShowtimeMissingMessage)
  {
    var h := hall.value;
    FindFirst(movies, (m: Movie) => Some(m.id) == h.movieId, i);
    var cs := movies[i].cinemas;
    FindFirst(cs, (c: Cinema) => Some(c.id) == h.cinema, j);
    var hs := cs[j].halls;
    FindFirst(hs, (x: Hall) => Some(x.id) == h.id, k);
  }

  // ---------------------------------------------------------------------------
  // Booked seats

  /** One element of the `/api/seats/:movieId` response. */
  datatype SeatRecord = SeatRecord(seatNumber: string, status: string)

  predicate IsBooked(rec: SeatRecord) { rec.status == "booked" }

  /** `fetchOccupiedSeats`: the seat numbers of the booked records, in response order;
      no seat at all when the request fails (`None`). */
  function BookedSeats(response: Option<seq<SeatRecord>>): (r: seq<string>)
    ensures response.None? ==> r == []
    ensures response.Some? ==> |r| == Count(response.value, IsBooked)
    ensures response.Some? ==> var booked := Filter(response.value, IsBooked);
      |r| == |booked| && forall i :: 0 <= i < |r| ==> r[i] == booked[i].seatNumber
    ensures response.Some? ==> forall rec :: rec in response.value && IsBooked(rec) ==> rec.seatNumber in r
    ensures response.Some? ==> forall s :: s in r ==>
      exists rec :: rec in response.value && IsBooked(rec) && rec.seatNumber == s
  {
    match response
    case None => []
    case Some(records) =>
      var booked := Filter(records, IsBooked);
      var r := seq(|booked|, i requires 0 <= i < |booked| => booked[i].seatNumber);
      assert forall rec :: rec in booked ==> rec.seatNumber in r by {
        forall rec | rec in booked ensures rec.seatNumber in r {
          var i :| 0 <= i < |booked| && booked[i] == rec;
          assert r[i] == rec.seatNumber;
        }
      }
      assert forall s :: s in r ==> exists rec :: rec in booked && rec.seatNumber == s by {
        forall s | s in r ensures exists rec :: rec in booked && rec.seatNumber == s {
          var i :| 0 <= i < |r| && r[i] == s;
          assert booked[i] in booked;
        }
      }
      r
  }

  /** The booked seats of a response are those of its first part followed by those of the
      rest: response order is kept. */
  lemma BookedSeatsAppend(a: seq<SeatRecord>, b: seq<SeatRecord>)
    ensures BookedSeats(Some(a + b)) == BookedSeats(Some(a)) + BookedSeats(Some(b))
  {
    FilterAppend(a, b, IsBooked);
    var l, ra, rb := BookedSeats(Some(a + b)), BookedSeats(Some(a)), BookedSeats(Some(b));
    assert |l| == |ra + rb|;
    forall i | 0 <= i < |l| ensures l[i] == (ra + rb)[i] {
      if i < |ra| {
        assert Filter(a + b, IsBooked)[i] == Filter(a, IsBooked)[i];
      } else {
        assert Filter(a + b, IsBooked)[i] == Filter(b, IsBooked)[i - |ra|];
      }
    }
  }

  // ---------------------------------------------------------------------------
  // Seat clicks

  /** What one click does: the selection kept, whether the limit error is raised, and the
      selection reported through `onSeatSelect` (none when the click is refused). */
  datatype ClickOutcome = ClickOutcome(selection: seq<string>, limitError: bool, reported: Option<seq<string>>)

  predicate IsNot(x: string, y: string) { y != x }

  /** `handleSeatClick`. */
  function Click(occupied: seq<string>, selected: seq<string>, seatId: string): (o: ClickOutcome)
    // a booked seat ignores clicks
    ensures seatId in occupied ==> o == ClickOutcome(selected, false, None)
    // a selected seat is released and every other seat stays
    ensures seatId !in occupied && seatId in selected ==>
      && seatId !in o.selection
      && (forall x :: x in o.selection <==> x in selected && x != seatId)
      && !o.limitError && o.reported == Some(o.selection)
    // a free seat is appended while fewer than eight are selected
    ensures seatId !in occupied && seatId !in selected && |selected| < MaxSeats ==>
      o == ClickOutcome(selected + [seatId], false, Some(selected + [seatId]))
    // the ninth seat is refused with the limit error
    ensures seatId !in occupied && seatId !in selected && |selected| >= MaxSeats ==>
      o == ClickOutcome(selected, true, None)
  {
    if seatId in occupied then ClickOutcome(selected, false, None)
    else if seatId in selected then
      var s := Filter(selected, (x: string) => IsNot(seatId, x));
      ClickOutcome(s, false, Some(s))
    else if |selected + [seatId]| > MaxSeats then ClickOutcome(selected, true, None)
    else ClickOutcome(selected + [seatId], false, Some(selected + [seatId]))
  }

  /** A duplicate-free selection of at most eight seats stays so, and a click never adds a
      booked seat. */
  lemma ClickKeepsSelectionValid(occupied: seq<string>, selected: seq<string>, seatId: string)
    requires NoDuplicates(selected) && |selected| <= MaxSeats
    ensures var o := Click(occupied, selected, seatId);
      NoDuplicates(o.selection) && |o.selection| <= MaxSeats
      && forall x :: x in o.selection && x !in selected ==> x !in occupied
  {
    if seatId !in occupied && seatId in selected {
      FilterNoDuplicates(selected, (x: string) => IsNot(seatId, x));
    }
  }

  /** Clicking the seat held at position `k` of a duplicate-free selection removes exactly
      that position and keeps the other seats in their order. */
  lemma ClickReleasesThatPosition(occupied: seq<string>, selected: seq<string>, k: nat)
    requires NoDuplicates(selected) && k < |selected| && selected[k] !in occupied
    ensures Click(occupied, selected, selected[k]).selection == selected[..k] + selected[k + 1..]
  {
    FilterRemovesOne(selected, k, (x: string) => IsNot(selected[k], x));
  }

  /** Releasing a seat of a duplicate-free selection shortens it by exactly one. */
  lemma {:induction false} ReleaseShortens(selected: seq<string>, seatId: string)
    requires NoDuplicates(selected) && seatId in selected
    ensures |Filter(selected, (x: string) => IsNot(seatId, x))| == |selected| - 1
  {
    if selected[0] == seatId {
      assert seatId !in selected[1..];
      FilterAll(selected[1..], (x: string) => IsNot(seatId, x));
    } else {
      ReleaseShortens(selected[1..], seatId);
    }
  }

  /** Clicking a free seat twice gives back the selection the user started from. */
  lemma ClickTwiceRestores(occupied: seq<string>, selected: seq<string>, seatId: string)
    requires seatId !in occupied && seatId !in selected && |selected| < MaxSeats
    ensures Click(occupied, Click(occupied, selected, seatId).selection, seatId).selection == selected
  {
    var p := (x: string) => IsNot(seatId, x);
    FilterAppend(selected, [seatId], p);
    FilterAll(selected, p);
  }

  // ---------------------------------------------------------------------------
  // Drawing the grid

  datatype SeatStatus = Available | Selected | Occupied

  /** `getSeatStatus`: booked wins over selected. */
  function StatusOf(occupied: seq<string>, selected: seq<string>, seatId: string): (s: SeatStatus)
    ensures s == Occupied <==> seatId in occupied
    ensures s == Selected <==> seatId !in occupied && seatId in selected
    ensures s == Available <==> seatId !in occupied && seatId !in selected
  {
    if seatId in occupied then Occupied
    else if seatId in selected then Selected
    else Available
  }

  /** `getSeatType`: standard until a seat map is loaded. */
  function GridSeatType(config: Option<SeatMap>, row: string): (t: SeatType)
    ensures t == Vip <==> config.Some? && row in config.value.vipRows
  {
    match config
    case None => Standard
    case Some(sm) => RowType(sm, row)
  }

  /** `getSeatPrice`: zero until a seat map is loaded, then the price of the row's type. */
  function GridSeatPrice(config: Option<SeatMap>, row: string): (p: int)
    ensures config.None? ==> p == 0
    ensures config.Some? && row in config.value.vipRows ==> p == config.value.vipPrice
    ensures config.Some? && row !in config.value.vipRows ==> p == config.value.standardPrice
  {
    match config
    case None => 0
    case Some(sm) => TypePrice(sm, GridSeatType(config, row))
  }

  /** The seat ids drawn for one row: `${row}${i + 1}` for each column. */
  function RowSeatIds(row: string, columns: nat): (ids: seq<string>)
    ensures |ids| == columns
  {
    seq(columns, i requires 0 <= i < columns => row + NatToString(i + 1))
  }

  /** Each id of a row starts with the row label and the rest reads back as its column. */
  lemma RowSeatIdsParse(row: string, columns: nat, i: nat)
    requires i < columns
    ensures var id := RowSeatIds(row, columns)[i];
      |row| <= |id| && id[..|row|] == row && ParseInt(id[|row|..]) == Some(i + 1)
  {
    var id := RowSeatIds(row, columns)[i];
    assert id[|row|..] == NatToString(i + 1);
    ParseIntNatToString(i + 1);
  }

  /** No two seats of a row share an id. */
  lemma RowSeatIdsDistinct(row: string, columns: nat)
    ensures NoDuplicates(RowSeatIds(row, columns))
  {
    var ids := RowSeatIds(row, columns);
    forall i, j | 0 <= i < j < columns ensures ids[i] != ids[j] {
      RowSeatIdsParse(row, columns, i);
      RowSeatIdsParse(row, columns, j);
    }
  }

  /** What the component renders. */
  datatype View = LoadingView | ErrorView(message: string) | NoConfigView | GridView

  function ViewOf(isLoading: bool, error: Option<string>, config: Option<SeatMap>): (v: View)
    ensures v == LoadingView <==> isLoading
    ensures !isLoading && Truthy(error) ==> v == ErrorView(error.value)
    ensures !isLoading && !Truthy(error) && config.None? ==> v == NoConfigView
    ensures v == GridView <==> !isLoading && !Truthy(error) && config.Some?
  {
    if isLoading then LoadingView
    else if Truthy(error) then ErrorView(error.value)
    else if config.None? then NoConfigView
    else GridView
  }

  /** The state of the component for one `hall` prop. */
  class SeatGrid {
    var hall: Option<HallProp>
    const movies: seq<Movie>
    var selectedSeats: seq<string>
    var occupiedSeats: seq<string>
    var isLoading: bool
    var error: Option<string>
    var seatConfig: Option<SeatMap>
    /** Every selection passed to `onSeatSelect`, oldest first. */
    var reported: seq<seq<string>>

    ghost predicate Valid()
      reads this
    {
      NoDuplicates(selectedSeats) && |selectedSeats| <= MaxSeats
    }

    /** Mounting: nothing selected or booked yet, loading. */
    constructor(hall: Option<HallProp>, movies: seq<Movie>)
      ensures Valid()
      ensures this.hall == hall && this.movies == movies
      ensures selectedSeats == [] && occupiedSeats == [] && reported == []
      ensures isLoading && error == None && seatConfig == None
    {
      this.hall := hall;
      this.movies := movies;
      selectedSeats := [];
      occupiedSeats := [];
      isLoading := true;
      error := None;
      seatConfig := None;
      reported := [];
    }

    /** The `[hall]` effect (and the "Try Again" button): clear the error, load the seat map. */
    method LoadConfig()
      requires Valid()
      modifies this
      ensures Valid()
      ensures !isLoading
      ensures LoadSeatConfig(hall, movies).Ok? ==>
        error == None && seatConfig == Some(LoadSeatConfig(hall, movies).value)
      ensures LoadSeatConfig(hall, movies).Err? ==>
        error == Some(LoadSeatConfig(hall, movies).message) && seatConfig == old(seatConfig)
      ensures hall == old(hall) && selectedSeats == old(selectedSeats)
      ensures occupiedSeats == old(occupiedSeats) && reported == old(reported)
    {
      isLoading := true;
      error := None;
      match LoadSeatConfig(hall, movies)
      case Ok(sm) =>
        seatConfig := Some(sm);
        isLoading := false;
      case Err(msg) =>
        error := Some(msg);
        isLoading := false;
    }

    /** A new `hall` prop: the seat map is reloaded, the selection is kept. */
    method ReceiveHall(h: Option<HallProp>)
      requires Valid()
      modifies this
      ensures Valid()
      ensures hall == h && selectedSeats == old(selectedSeats) && reported == old(reported)
      ensures occupiedSeats == old(occupiedSeats) && !isLoading
      ensures LoadSeatConfig(h, movies).Ok? ==>
        error == None && seatConfig == Some(LoadSeatConfig(h, movies).value)
      ensures LoadSeatConfig(h, movies).Err? ==>
        error == Some(LoadSeatConfig(h, movies).message) && seatConfig == old(seatConfig)
    {
      hall := h;
      LoadConfig();
    }

    /** The polling effect runs only with a loaded seat map and no error. */
    predicate PollActive()
      reads this
    {
      !isLoading && !Truthy(error) && seatConfig.Some?
    }

    /** One poll of the booked seats (`None`: the request failed). */
    method FetchOccupied(response: Option<seq<SeatRecord>>)
      requires Valid()
      modifies this
      ensures Valid()
      ensures !HasBookingInfo(hall) ==>
        error == Some(MissingBookingMessage) && !isLoading && occupiedSeats == old(occupiedSeats)
      ensures !HasBookingInfo(hall) ==> !PollActive()
      ensures HasBookingInfo(hall) ==> PollActive() == old(PollActive())
      ensures HasBookingInfo(hall) ==>
        occupiedSeats == BookedSeats(response) && error == old(error) && isLoading == old(isLoading)
      ensures selectedSeats == old(selectedSeats) && seatConfig == old(seatConfig)
      ensures hall == old(hall) && reported == old(reported)
    {
      if !HasBookingInfo(hall) {
        error := Some(MissingBookingMessage);
        isLoading := false;
        return;
      }
      occupiedSeats := BookedSeats(response);
    }

    /** `handleSeatClick`. */
    method ClickSeat(seatId: string)
      requires Valid()
      modifies this
      ensures Valid()
      ensures var o := Click(old(occupiedSeats), old(selectedSeats), seatId);
        && selectedSeats == o.selection
        && (o.limitError ==> error == Some(MaxSeatsMessage))
        && (!o.limitError ==> error == old(error))
        && (o.reported.Some? ==> reported == old(reported) + [o.reported.value])
        && (o.reported.None? ==> reported == old(reported))
      ensures occupiedSeats == old(occupiedSeats) && seatConfig == old(seatConfig)
      ensures hall == old(hall) && isLoading == old(isLoading)
    {
      ClickKeepsSelectionValid(occupiedSeats, selectedSeats, seatId);
      var o := Click(occupiedSeats, selectedSeats, seatId);
      selectedSeats := o.selection;
      if o.limitError {
        error := Some(MaxSeatsMessage);
      }
      if o.reported.Some? {
        reported := reported + [o.reported.value];
      }
    }
  }

  /** Refusing a ninth seat replaces the grid by the error view, whose message is the limit. */
  lemma LimitErrorHidesGrid(occupied: seq<string>, selected: seq<string>, seatId: string, config: Option<SeatMap>)
    requires seatId !in occupied && seatId !in selected && |selected| == MaxSeats
    ensures Click(occupied, selected, seatId).limitError
    ensures ViewOf(false, Some(MaxSeatsMessage), config) == ErrorView(MaxSeatsMessage)
  {
  }
}
