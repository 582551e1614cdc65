/** The older seat-selection page (`src/pages/Select/index.jsx`): premium pricing for rows
    up to `C`, a confirmation dialog, and a payment URL that carries the booking in its
    query string. */
module SelectIndex {
  import opened Js
  import SelectTotal

  /** `seatPrices` of the page's data module. */
  datatype SeatPrices = SeatPrices(premium: int, standard: int)

  /** `seatId.charAt(0) <= 'C'`, compared as JavaScript strings. */
  predicate IsPremium(seatId: string)
    ensures seatId != [] && seatId[0] < 'C' ==> IsPremium(seatId)
    ensures seatId != [] && seatId[0] > 'C' ==> !IsPremium(seatId)
  {
    StrLeq(SelectTotal.RowOf(seatId), "C")
  }

  /** A seat is premium exactly when its first character is `C` or below, or when the id is
      empty (the empty row compares below `C`). */
  lemma PremiumByFirstChar(seatId: string)
    ensures IsPremium(seatId) <==> seatId == [] || seatId[0] <= 'C'
  {
    if seatId != [] {
      var r := SelectTotal.RowOf(seatId);
      assert r == [seatId[0]];
      if seatId[0] == 'C' { assert r[1..] == []; }
    }
  }

  function PriceFor(prices: SeatPrices, seatId: string): int {
    if IsPremium(seatId) then prices.premium else prices.standard
  }

  /** `calculateTotal`. */
  function CalculateTotal(prices: SeatPrices, seats: seq<string>): (r: int)
    ensures seats == [] ==> r == 0
    ensures |seats| == 1 ==> r == if IsPremium(seats[0]) then prices.premium else prices.standard
  {
    SumOf(seats, (s: string) => PriceFor(prices, s))
  }

  /** The premium price per premium seat plus the standard price per other seat. */
  lemma CalculateTotalByClass(prices: SeatPrices, seats: seq<string>)
    ensures var premium := Count(seats, IsPremium);
      CalculateTotal(prices, seats) == premium * prices.premium + (|seats| - premium) * prices.standard
  {
    SumOfTwoValued(seats, (s: string) => PriceFor(prices, s), IsPremium, prices.premium, prices.standard);
  }

  /** The total does not depend on the order in which seats were picked. */
  lemma CalculateTotalOrderIrrelevant(prices: SeatPrices, a: seq<string>, b: seq<string>)
    requires multiset(a) == multiset(b)
    ensures CalculateTotal(prices, a) == CalculateTotal(prices, b)
  {
    SumOfPermutation(a, b, (s: string) => PriceFor(prices, s));
  }

  // ---------------------------------------------------------------------------
  // Finding the movie

  /** A movie id of the data module: either a string or a number. */
  datatype MovieKey = StrKey(s: string) | NumKey(n: int)

  /** `m.id === id || m.id === parseInt(id)`. */
  predicate KeyMatches(key: MovieKey, id: string) {
    key == StrKey(id) || (ParseInt(id).Some? && key == NumKey(ParseInt(id).value))
  }

  predicate MovieFound(keys: seq<MovieKey>, id: string) {
    exists i :: 0 <= i < |keys| && KeyMatches(keys[i], id)
  }

  /** A numeric movie id is found from its decimal spelling. */
  lemma NumericIdFound(keys: seq<MovieKey>, n: nat)
    requires NumKey(n) in keys
    ensures MovieFound(keys, NatToString(n))
  {
    ParseIntNatToString(n);
    var i :| 0 <= i < |keys| && keys[i] == NumKey(n);
    assert KeyMatches(keys[i], NatToString(n));
  }

  /** `parseInt` stops at the first non-digit, so a route id with trailing letters still
      finds the numeric movie. */
  lemma TrailingLettersStillFind()
    ensures MovieFound([NumKey(7)], "7abc")
  {
    assert NatToString(7) + "abc" == "7abc";
    ParseIntStopsAtNonDigit(7, "abc");
    var keys := [NumKey(7)];
    assert KeyMatches(keys[0], "7abc");
  }

  // ---------------------------------------------------------------------------
  // Views and navigation

  datatype View = MissingInfo | Loading | MovieNotFound | Content

  /** Missing route data wins over loading, which wins over an unknown movie. */
  function ViewOf(id: Option<string>, cinema: Option<string>, time: Option<string>, isLoading: bool,
                  movieFound: bool): (v: View)
    ensures v == MissingInfo <==> !Truthy(id) || !Truthy(cinema) || !Truthy(time)
    ensures v == Loading <==> Truthy(id) && Truthy(cinema) && Truthy(time) && isLoading
    ensures v == Content <==> Truthy(id) && Truthy(cinema) && Truthy(time) && !isLoading && movieFound
  {
    if !Truthy(id) || !Truthy(cinema) || !Truthy(time) then MissingInfo
    else if isLoading then Loading
    else if !movieFound then MovieNotFound
    else Content
  }

  /** The query pairs of the payment URL, in template order. */
  function ConfirmPairs(seats: seq<string>, cinema: string, time: string, date: string, total: int)
    : seq<(string, string)>
  {
    [("seats", Join(seats, ',')), ("cinema", cinema), ("time", time), ("date", date), ("total", IntToString(total))]
  }

  /** `handleConfirmBooking`'s target: `/payment/<id>?seats=...&cinema=...&time=...&date=...&total=...`,
      with the selected date or else today's. */
  function ConfirmUrl(id: string, seats: seq<string>, cinema: string, time: string,
                      selectedDate: Option<string>, currentDate: string, total: int): (r: string)
    ensures "/payment/" + id + "?" <= r
  {
    "/payment/" + id + "?" + QueryString(ConfirmPairs(seats, cinema, time, OrDefault(selectedDate, currentDate), total))
  }

  /** When no value holds `&` and no seat holds `,`, the query string gives back the seats,
      in order, and the remaining fields. */
  lemma ConfirmUrlRecoversBooking(seats: seq<string>, cinema: string, time: string, date: string, total: nat)
    requires |seats| >= 1
    requires forall i :: 0 <= i < |seats| ==> ',' !in seats[i] && '&' !in seats[i]
    requires '&' !in cinema && '&' !in time && '&' !in date
    ensures Split(QueryString(ConfirmPairs(seats, cinema, time, date, total)), '&') ==
      ["seats=" + Join(seats, ','), "cinema=" + cinema, "time=" + time, "date=" + date,
       "total=" + NatToString(total)]
    ensures Split(Join(seats, ','), ',') == seats
    ensures ParseInt(IntToString(total)) == Some(total)
  {
    SplitJoin(seats, ',');
    ConfirmPairsAvoidAmpersand(seats, cinema, time, date, total);
    QueryStringSplits(ConfirmPairs(seats, cinema, time, date, total));
    ConfirmPieces(seats, cinema, time, date, total);
    ParseIntNatToString(total);
  }

  lemma ConfirmPairsAvoidAmpersand(seats: seq<string>, cinema: string, time: string, date: string, total: nat)
    requires forall i :: 0 <= i < |seats| ==> '&' !in seats[i]
    requires '&' !in cinema && '&' !in time && '&' !in date
    ensures var pairs := ConfirmPairs(seats, cinema, time, date, total);
      forall i :: 0 <= i < |pairs| ==> '&' !in pairs[i].0 && '&' !in pairs[i].1
  {
    JoinAvoids(seats, ',', '&');
    NatToStringAvoids(total);
  }

  lemma ConfirmPieces(seats: seq<string>, cinema: string, time: string, date: string, total: nat)
    ensures QueryPieces(ConfirmPairs(seats, cinema, time, date, total)) ==
      ["seats=" + Join(seats, ','), "cinema=" + cinema, "time=" + time, "date=" + date,
       "total=" + NatToString(total)]
  {
    var pairs := ConfirmPairs(seats, cinema, time, date, total);
    var r := QueryPieces(pairs);
    assert |r| == 5 && pairs[4].1 == NatToString(total);
    assert "seats" + "=" == "seats=" && "cinema" + "=" == "cinema=" && "time" + "=" == "time=";
    assert "date" + "=" == "date=" && "total" + "=" == "total=";
    assert r[0] == "seats" + "=" + Join(seats, ',');
    assert r[1] == "cinema" + "=" + cinema;
    assert r[2] == "time" + "=" + time;
    assert r[3] == "date" + "=" + date;
    assert r[4] == "total" + "=" + NatToString(total);
  }

  lemma {:induction false} JoinAvoids(parts: seq<string>, sep: char, c: char)
    requires sep != c
    requires forall i :: 0 <= i < |parts| ==> c !in parts[i]
    ensures c !in Join(parts, sep)
  {
    if |parts| > 1 { JoinAvoids(parts[1..], sep, c); }
  }

  lemma NatToStringAvoids(n: nat)
    ensures '&' !in NatToString(n)
  {
  }

  /** The page's state. */
  class SelectIndexState {
    var selectedSeats: seq<string>
    var showConfirmation: bool
    var selectedDate: Option<string>
    var isLoading: bool

    constructor()
      ensures selectedSeats == [] && !showConfirmation && selectedDate == None && isLoading
    {
      selectedSeats := [];
      showConfirmation := false;
      selectedDate := None;
      isLoading := true;
    }

    /** The 800 ms timer of the mount effect. */
    method LoadingTimerFires()
      modifies this
      ensures !isLoading
      ensures selectedSeats == old(selectedSeats) && showConfirmation == old(showConfirmation)
      ensures selectedDate == old(selectedDate)
    {
      isLoading := false;
    }

    /** `onSeatSelect={setSelectedSeats}`. */
    method ReceiveSeats(seats: seq<string>)
      modifies this
      ensures selectedSeats == seats
      ensures showConfirmation == old(showConfirmation) && selectedDate == old(selectedDate)
      ensures isLoading == old(isLoading)
    {
      selectedSeats := seats;
    }

    /** `onDateSelect={setSelectedDate}`. */
    method ReceiveDate(date: string)
      modifies this
      ensures selectedDate == Some(date)
      ensures selectedSeats == old(selectedSeats) && showConfirmation == old(showConfirmation)
      ensures isLoading == old(isLoading)
    {
      selectedDate := Some(date);
    }

    /** `handleProceed`: the dialog opens only for a non-empty selection. */
    method Proceed()
      modifies this
      ensures showConfirmation == (old(showConfirmation) || |selectedSeats| > 0)
      ensures selectedSeats == old(selectedSeats) && selectedDate == old(selectedDate)
      ensures isLoading == old(isLoading)
    {
      if |selectedSeats| > 0 {
        showConfirmation := true;
      }
    }

    /** The dialog's Cancel button. */
    method Cancel()
      modifies this
      ensures !showConfirmation
      ensures selectedSeats == old(selectedSeats) && selectedDate == old(selectedDate)
      ensures isLoading == old(isLoading)
    {
      showConfirmation := false;
    }

    /** The dialog's Confirm button: the URL navigated to. */
    method Confirm(id: string, cinema: string, time: string, currentDate: string, prices: SeatPrices)
      returns (url: string)
      ensures url == ConfirmUrl(id, selectedSeats, cinema, time, selectedDate, currentDate,
        CalculateTotal(prices, selectedSeats))
    {
      url := ConfirmUrl(id, selectedSeats, cinema, time, selectedDate, currentDate, CalculateTotal(prices, selectedSeats));
    }
  }
}
