/** The showtime seat page (`src/pages/SelectSeats/index.jsx`): seats come from the
    showtime record with their own status and price; the user picks up to eight
    available seats and posts a booking whose amount is the sum of their prices. */
module SelectSeatsPage {
  import opened Js

  const MaxSeats: nat := 8

  /** One seat of the showtime record; selected seats are copies tagged with their row. */
  datatype ApiSeat = ApiSeat(row: string, number: int, kind: string, status: string, price: int)

  datatype ApiRow = ApiRow(row: string, seats: seq<ApiSeat>)

  /** `s.row === row.row && s.number === seat.number`. */
  predicate SameSeat(s: ApiSeat, row: string, number: int) {
    s.row == row && s.number == number
  }

  predicate IsSelected(selected: seq<ApiSeat>, row: string, number: int) {
    exists i :: 0 <= i < |selected| && SameSeat(selected[i], row, number)
  }

  function Release(selected: seq<ApiSeat>, row: string, number: int): (r: seq<ApiSeat>)
    ensures !IsSelected(r, row, number)
    ensures forall s :: s in r <==> s in selected && !SameSeat(s, row, number)
  {
    var r := Filter(selected, (s: ApiSeat) => !SameSeat(s, row, number));
    assert forall i :: 0 <= i < |r| ==> !SameSeat(r[i], row, number) by {
      forall i | 0 <= i < |r| ensures !SameSeat(r[i], row, number) { assert r[i] in r; }
    }
    r
  }

  /** Releasing the one selected entry for a seat removes exactly that position; the other
      seats keep their order. */
  lemma ReleaseRemovesThatEntry(selected: seq<ApiSeat>, row: string, number: int, k: nat)
    requires k < |selected| && SameSeat(selected[k], row, number)
    requires forall i :: 0 <= i < |selected| && i != k ==> !SameSeat(selected[i], row, number)
    ensures Release(selected, row, number) == selected[..k] + selected[k + 1..]
  {
    FilterRemovesOne(selected, k, (s: ApiSeat) => !SameSeat(s, row, number));
  }

  /** `handleSeatClick` as written: the limit is tested before the seat is looked up, so
      with eight seats selected no seat can be released either. */
  function ClickAsWritten(selected: seq<ApiSeat>, row: ApiRow, seat: ApiSeat): (r: seq<ApiSeat>)
    ensures seat.status != "available" || |selected| >= MaxSeats ==> r == selected
    ensures seat.status == "available" && |selected| < MaxSeats && IsSelected(selected, row.row, seat.number) ==>
      r == Release(selected, row.row, seat.number)
    ensures seat.status == "available" && |selected| < MaxSeats && !IsSelected(selected, row.row, seat.number) ==>
      r == selected + [seat.(row := row.row)]
  {
    if seat.status != "available" || |selected| >= MaxSeats then selected
    else if IsSelected(selected, row.row, seat.number) then Release(selected, row.row, seat.number)
    else selected + [seat.(row := row.row)]
  }

  /** With eight seats selected, clicking one of them leaves it selected. */
  lemma AsWrittenCannotReleaseAtLimit(selected: seq<ApiSeat>, row: ApiRow, seat: ApiSeat)
    requires |selected| == MaxSeats && seat.status == "available"
    requires IsSelected(selected, row.row, seat.number)
    ensures ClickAsWritten(selected, row, seat) == selected
    ensures IsSelected(ClickAsWritten(selected, row, seat), row.row, seat.number)
  {
  }

  /** The click the limit evidently means: selected seats can always be released, and only
      a ninth new seat is refused. */
  function Click(selected: seq<ApiSeat>, row: ApiRow, seat: ApiSeat): (r: seq<ApiSeat>)
    ensures seat.status != "available" ==> r == selected
    ensures seat.status == "available" && IsSelected(selected, row.row, seat.number) ==>
      r == Release(selected, row.row, seat.number)
    ensures seat.status == "available" && !IsSelected(selected, row.row, seat.number) && |selected| < MaxSeats ==>
      r == selected + [seat.(row := row.row)]
    ensures seat.status == "available" && !IsSelected(selected, row.row, seat.number) && |selected| >= MaxSeats ==>
      r == selected
  {
    if seat.status != "available" then selected
    else if IsSelected(selected, row.row, seat.number) then Release(selected, row.row, seat.number)
    else if |selected| >= MaxSeats then selected
    else selected + [seat.(row := row.row)]
  }

  /** At the limit a selected seat is released by the corrected click. */
  lemma ClickReleasesAtLimit(selected: seq<ApiSeat>, row: ApiRow, seat: ApiSeat)
    requires |selected| == MaxSeats && seat.status == "available"
    requires IsSelected(selected, row.row, seat.number)
    ensures !IsSelected(Click(selected, row, seat), row.row, seat.number)
  {
  }

  /** The two clicks differ only at the limit. */
  lemma ClickAgreesBelowLimit(selected: seq<ApiSeat>, row: ApiRow, seat: ApiSeat)
    requires |selected| < MaxSeats
    ensures Click(selected, row, seat) == ClickAsWritten(selected, row, seat)
  {
  }

  /** No two selected entries are the same seat; every entry was available; at most eight. */
  ghost predicate ValidSelection(selected: seq<ApiSeat>) {
    && |selected| <= MaxSeats
    && (forall i, j :: 0 <= i < j < |selected| ==> !SameSeat(selected[j], selected[i].row, selected[i].number))
    && (forall i :: 0 <= i < |selected| ==> selected[i].status == "available")
  }

  lemma {:induction false} ReleaseKeepsValid(selected: seq<ApiSeat>, row: string, number: int)
    requires ValidSelection(selected)
    ensures ValidSelection(Release(selected, row, number))
    ensures |Release(selected, row, number)| <= |selected|
  {
    var p := (s: ApiSeat) => !SameSeat(s, row, number);
    if selected != [] {
      var x, tail := selected[0], selected[1..];
      ValidSelectionTail(selected);
      ReleaseKeepsValid(tail, row, number);
      var rt := Release(tail, row, number);
      assert Release(selected, row, number) == (if p(x) then [x] else []) + rt;
      if p(x) {
        assert forall y :: y in rt ==> y in tail;
        ValidSelectionCons(x, rt);
      } else {
        assert [] + rt == rt;
      }
    }
  }

  /** Dropping the first entry keeps a selection valid, and no later entry is its seat. */
  lemma ValidSelectionTail(s: seq<ApiSeat>)
    requires ValidSelection(s) && s != []
    ensures ValidSelection(s[1..])
    ensures forall y :: y in s[1..] ==> !SameSeat(y, s[0].row, s[0].number)
  {
    var tail := s[1..];
    forall i, j | 0 <= i < j < |tail|
      ensures !SameSeat(tail[j], tail[i].row, tail[i].number)
    {
      assert tail[i] == s[i + 1] && tail[j] == s[j + 1];
    }
    forall i | 0 <= i < |tail| ensures tail[i].status == "available" {
      assert tail[i] == s[i + 1];
    }
    forall y | y in tail ensures !SameSeat(y, s[0].row, s[0].number) {
      var k :| 0 <= k < |tail| && tail[k] == y;
      assert s[k + 1] == y;
    }
  }

  /** An available seat put in front of a valid selection that does not hold it, below the
      limit, gives a valid selection. */
  lemma ValidSelectionCons(x: ApiSeat, t: seq<ApiSeat>)
    requires ValidSelection(t) && |t| < MaxSeats && x.status == "available"
    requires forall y :: y in t ==> !SameSeat(y, x.row, x.number)
    ensures ValidSelection([x] + t)
  {
    var r := [x] + t;
    forall i, j | 0 <= i < j < |r| ensures !SameSeat(r[j], r[i].row, r[i].number) {
      assert r[j] == t[j - 1];
      if i > 0 { assert r[i] == t[i - 1]; } else { assert r[j] in t; }
    }
  }

  /** The corrected click keeps the selection valid. */
  lemma ClickKeepsValid(selected: seq<ApiSeat>, row: ApiRow, seat: ApiSeat)
    requires ValidSelection(selected)
    ensures ValidSelection(Click(selected, row, seat))
  {
    if seat.status == "available" {
      if IsSelected(selected, row.row, seat.number) {
        ReleaseKeepsValid(selected, row.row, seat.number);
      } else if |selected| < MaxSeats {
        var r := selected + [seat.(row := row.row)];
        forall i, j | 0 <= i < j < |r| ensures !SameSeat(r[j], r[i].row, r[i].number) {
          if j == |selected| {
            if SameSeat(r[j], r[i].row, r[i].number) {
              assert SameSeat(selected[i], row.row, seat.number);
            }
          }
        }
      }
    }
  }

  /** Clicking a free available seat twice restores the selection. */
  lemma ClickTwiceRestores(selected: seq<ApiSeat>, row: ApiRow, seat: ApiSeat)
    requires seat.status == "available" && |selected| < MaxSeats
    requires !IsSelected(selected, row.row, seat.number)
    ensures Click(Click(selected, row, seat), row, seat) == selected
  {
    var added := seat.(row := row.row);
    var s1 := selected + [added];
    assert s1[|selected|] == added;
    assert IsSelected(s1, row.row, seat.number);
    var p := (s: ApiSeat) => !SameSeat(s, row.row, seat.number);
    FilterAppend(selected, [added], p);
    forall i | 0 <= i < |selected| ensures p(selected[i]) {
      if !p(selected[i]) { assert IsSelected(selected, row.row, seat.number); }
    }
    FilterAll(selected, p);
    assert Filter([added], p) == [];
  }

  // ---------------------------------------------------------------------------
  // Amounts and booking

  /** `selectedSeats.reduce((sum, seat) => sum + seat.price, 0)`. */
  function TotalAmount(selected: seq<ApiSeat>): (r: int)
    ensures selected == [] ==> r == 0
    ensures |selected| == 1 ==> r == selected[0].price
  {
    SumOf(selected, (s: ApiSeat) => s.price)
  }

  /** Adding a seat adds its price; releasing one takes it away. */
  lemma TotalAmountAfterAdd(selected: seq<ApiSeat>, seat: ApiSeat)
    ensures TotalAmount(selected + [seat]) == TotalAmount(selected) + seat.price
  {
    assert (selected + [seat])[..|selected|] == selected;
  }

  /** The total does not depend on the order in which seats were picked. */
  lemma TotalAmountOrderIrrelevant(a: seq<ApiSeat>, b: seq<ApiSeat>)
    requires multiset(a) == multiset(b)
    ensures TotalAmount(a) == TotalAmount(b)
  {
    SumOfPermutation(a, b, (s: ApiSeat) => s.price);
  }

  /** The body posted to `/api/bookings`. */
  datatype BookingRequest = BookingRequest(showtimeId: string, seats: seq<ApiSeat>, totalAmount: int)

  /** `disabled={selectedSeats.length === 0 || isBooking}`. */
  predicate BookingDisabled(selected: seq<ApiSeat>, isBooking: bool) {
    |selected| == 0 || isBooking
  }

  class SelectSeatsState {
    const showtimeId: string
    var showtime: Option<seq<ApiRow>>
    var selectedSeats: seq<ApiSeat>
    var isLoading: bool
    var isBooking: bool

    ghost predicate Valid()
      reads this
    {
      ValidSelection(selectedSeats)
    }

    constructor(showtimeId: string)
      ensures Valid()
      ensures this.showtimeId == showtimeId && showtime == None && selectedSeats == []
      ensures isLoading && !isBooking
    {
      this.showtimeId := showtimeId;
      showtime := None;
      selectedSeats := [];
      isLoading := true;
      isBooking := false;
    }

    /** The fetch of `/api/showtimes/:id` settles: the record when it succeeded. */
    method ShowtimeFetched(response: Option<seq<ApiRow>>)
      requires Valid()
      modifies this
      ensures Valid()
      ensures !isLoading
      ensures response.Some? ==> showtime == response
      ensures response.None? ==> showtime == old(showtime)
      ensures selectedSeats == old(selectedSeats) && isBooking == old(isBooking)
    {
      if response.Some? {
        showtime := response;
      }
      isLoading := false;
    }

    method ClickSeat(row: ApiRow, seat: ApiSeat)
      requires Valid()
      modifies this
      ensures Valid()
      ensures selectedSeats == Click(old(selectedSeats), row, seat)
      ensures showtime == old(showtime) && isLoading == old(isLoading) && isBooking == old(isBooking)
    {
      ClickKeepsValid(selectedSeats, row, seat);
      selectedSeats := Click(selectedSeats, row, seat);
    }

    /** `handleBooking` up to the request: nothing for an empty selection, otherwise the
        body whose amount is the displayed total. */
    method StartBooking() returns (request: Option<BookingRequest>)
      requires Valid()
      modifies this
      ensures Valid()
      ensures request.None? <==> old(selectedSeats) == []
      ensures !BookingDisabled(old(selectedSeats), old(isBooking)) ==> request.Some?
      ensures request.None? ==> BookingDisabled(old(selectedSeats), old(isBooking))
      ensures request.None? ==> isBooking == old(isBooking)
      ensures request.Some? ==>
        && isBooking
        && request.value == BookingRequest(showtimeId, selectedSeats, TotalAmount(selectedSeats))
      ensures selectedSeats == old(selectedSeats) && showtime == old(showtime) && isLoading == old(isLoading)
    {
      if |selectedSeats| == 0 {
        return None;
      }
      isBooking := true;
      request := Some(BookingRequest(showtimeId, selectedSeats, TotalAmount(selectedSeats)));
    }

    /** The request failed: the button becomes usable again. */
    method BookingFailed()
      requires Valid()
      modifies this
      ensures Valid()
      ensures !isBooking
      ensures selectedSeats == old(selectedSeats) && showtime == old(showtime) && isLoading == old(isLoading)
    {
      isBooking := false;
    }
  }

  /** The request succeeded: navigate to the payment page of the created booking. */
  function PaymentPath(bookingId: string): (p: string)
    ensures |p| == 9 + |bookingId| && p[..9] == "/payment/" && p[9..] == bookingId
  {
    "/payment/" + bookingId
  }
}
