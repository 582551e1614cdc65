/** The reusable seat picker (`src/components/Seat.jsx`): it fetches the seat lists of one
    showtime, builds the grid (standard rows, then VIP rows, each row's free seats then
    its booked ones, sorted by row and number), groups it by row, and keeps a selection
    of at most `MAX_SEATS` seats with its total price. */
module SeatComponent {
  import opened Js
  import opened Catalog

  const MaxSeats: nat := 8

  const ShowtimeMissingMessage := "Không tìm thấy thông tin suất chiếu"
  const CinemaMissingMessage := "Không tìm thấy thông tin rạp"
  const LoadFailedMessage := "Không thể tải thông tin ghế"
  const RequestFailedMessage := "Không thể tải thông tin ghế. Vui lòng thử lại"

  /** The seat lists of one seat type in a showtime record. */
  datatype SeatCategory = SeatCategory(rows: seq<string>, available: seq<string>, occupied: seq<string>, price: int)

  datatype ShowtimeSeats = ShowtimeSeats(standard: SeatCategory, vip: SeatCategory)

  datatype SeatShowtime = SeatShowtime(id: string, seats: ShowtimeSeats)

  datatype SeatCinema = SeatCinema(id: string, showtimes: seq<SeatShowtime>)

  /** How the request for `/api/seats/:movieId` ended. */
  datatype SeatResponse =
    | RequestFailed(errorMessage: Option<string>)
    | Answered(success: bool, data: seq<SeatCinema>, message: Option<string>)

  /** `fetchSeatData`: the cinema and showtime found in a successful answer, or the message
      shown instead. */
  function FetchSeatData(response: SeatResponse, cinemaId: string, showtimeId: string)
    : (r: Result<(SeatCinema, SeatShowtime)>)
    ensures r.Ok? ==> r.value.0.id == cinemaId && r.value.1.id == showtimeId && r.value.1 in r.value.0.showtimes
    ensures r.Ok? ==> response.Answered? && response.success && r.value.0 in response.data
    ensures r.Err? ==> r.message != ""
    ensures response.RequestFailed? ==> r == Err(OrDefault(response.errorMessage, RequestFailedMessage))
    ensures response.Answered? && !response.success ==> r == Err(OrDefault(response.message, LoadFailedMessage))
    ensures response.Answered? && response.success && (forall c :: c in response.data ==> c.id != cinemaId) ==>
      r == Err(CinemaMissingMessage)
  {
    match response
    case RequestFailed(msg) => Err(OrDefault(msg, RequestFailedMessage))
    case Answered(success, data, msg) =>
      if !success then Err(OrDefault(msg, LoadFailedMessage))
      else match Find(data, (c: SeatCinema) => c.id == cinemaId)
        case None => Err(CinemaMissingMessage)
        case Some(cinema) =>
          match Find(cinema.showtimes, (st: SeatShowtime) => st.id == showtimeId)
          case None => Err(ShowtimeMissingMessage)
          case Some(showtime) => Ok((cinema, showtime))
  }

  /** The first cinema with the id and, in it, the first showtime with the id are the ones
      shown. */
  lemma FetchSeatDataFindsShowtime(data: seq<SeatCinema>, message: Option<string>, cinemaId: string, showtimeId: string, i: nat, j: nat)
    requires i < |data| && data[i].id == cinemaId
    requires forall i' :: 0 <= i' < i ==> data[i'].id != cinemaId
    requires j < |data[i].showtimes| && data[i].showtimes[j].id == showtimeId
    requires forall j' :: 0 <= j' < j ==> data[i].showtimes[j'].id != showtimeId
    ensures FetchSeatData(Answered(true, data, message), cinemaId, showtimeId) == Ok((data[i], data[i].showtimes[j]))
  {
    FindFirst(data, (c: SeatCinema) => c.id == cinemaId, i);
    FindFirst(data[i].showtimes, (st: SeatShowtime) => st.id == showtimeId, j);
  }

  /** When the first cinema with the id has no showtime with the id, the message is
      "Không tìm thấy thông tin suất chiếu", whatever later cinemas hold. */
  lemma FetchSeatDataMissingShowtime(data: seq<SeatCinema>, message: Option<string>, cinemaId: string, showtimeId: string, i: nat)
    requires i < |data| && data[i].id == cinemaId
    requires forall i' :: 0 <= i' < i ==> data[i'].id != cinemaId
    requires forall st :: st in data[i].showtimes ==> st.id != showtimeId
    ensures FetchSeatData(Answered(true, data, message), cinemaId, showtimeId) == Err(ShowtimeMissingMessage)
  {
    FindFirst(data, (c: SeatCinema) => c.id == cinemaId, i);
  }

  // ---------------------------------------------------------------------------
  // Building the grid

  datatype GridStatus = Free | Booked

  /** One seat of the grid; `number` is `None` where `parseInt` gives `NaN`. */
  datatype GridSeat = GridSeat(id: string, row: string, number: Option<int>, kind: SeatType, price: int, status: GridStatus)

  predicate StartsWith(s: string, prefix: string) { prefix <= s }

  /** The grid entry for one seat id: the row is its first character, the number what
      `parseInt` reads after it. */
  function MakeSeat(id: string, kind: SeatType, price: int, status: GridStatus): (g: GridSeat)
    ensures g.id == id && g.kind == kind && g.price == price && g.status == status
    ensures id != [] ==> g.row == [id[0]]
  {
    GridSeat(id, if id == [] then [] else id[..1], ParseInt(if id == [] then [] else id[1..]), kind, price, status)
  }

  /** The ids of `ids` that start with `row`, as grid entries, in list order. */
  function RowEntries(ids: seq<string>, row: string, kind: SeatType, price: int, status: GridStatus)
    : (r: seq<GridSeat>)
    ensures |r| <= |ids|
  {
    if ids == [] then []
    else
      var last := ids[|ids| - 1];
      RowEntries(ids[..|ids| - 1], row, kind, price, status)
        + (if StartsWith(last, row) then [MakeSeat(last, kind, price, status)] else [])
  }

  /** An entry exists for an id exactly when the id is listed and starts with the row. */
  lemma {:induction false} RowEntriesMembers(ids: seq<string>, row: string, kind: SeatType, price: int,
                                             status: GridStatus)
    ensures forall g :: g in RowEntries(ids, row, kind, price, status) ==>
      (g.kind == kind && g.price == price && g.status == status && g.id in ids && StartsWith(g.id, row))
    ensures forall id :: id in ids && StartsWith(id, row) ==> MakeSeat(id, kind, price, status) in RowEntries(ids, row, kind, price, status)
  {
    if ids != [] {
      var init := ids[..|ids| - 1];
      RowEntriesMembers(init, row, kind, price, status);
      assert ids == init + [ids[|ids| - 1]];
    }
  }

  /** The `filter(...).map(...)` of one list for one row. */
  method Entries(ids: seq<string>, row: string, kind: SeatType, price: int, status: GridStatus)
    returns (r: seq<GridSeat>)
    ensures r == RowEntries(ids, row, kind, price, status)
  {
    r := [];
    var i := 0;
    while i < |ids|
      invariant 0 <= i <= |ids|
      invariant r == RowEntries(ids[..i], row, kind, price, status)
    {
      assert ids[..i + 1][..i] == ids[..i];
      if StartsWith(ids[i], row) {
        r := r + [MakeSeat(ids[i], kind, price, status)];
      }
      i := i + 1;
    }
    assert ids[..|ids|] == ids;
  }

  /** The entries of one row: its free seats, then its booked ones. */
  function RowSeats(cat: SeatCategory, kind: SeatType, row: string): seq<GridSeat> {
    RowEntries(cat.available, row, kind, cat.price, Free) + RowEntries(cat.occupied, row, kind, cat.price, Booked)
  }

  /** The entries contributed by the first `n` rows of a category, row after row. */
  function CategoryPrefix(cat: SeatCategory, kind: SeatType, n: nat): seq<GridSeat>
    requires n <= |cat.rows|
  {
    if n == 0 then [] else CategoryPrefix(cat, kind, n - 1) + RowSeats(cat, kind, cat.rows[n - 1])
  }

  function CategorySeats(cat: SeatCategory, kind: SeatType): seq<GridSeat> {
    CategoryPrefix(cat, kind, |cat.rows|)
  }

  /** All entries before sorting: the standard rows, then the VIP rows. */
  function Collected(st: ShowtimeSeats): seq<GridSeat> {
    CategorySeats(st.standard, Standard) + CategorySeats(st.vip, Vip)
  }

  /** The sort key of a seat number; `NaN` is taken as zero. */
  function NumberKey(g: GridSeat): int {
    if g.number.Some? then g.number.value else 0
  }

  /** The comparator: by row label, then by number. */
  predicate SeatLeq(a: GridSeat, b: GridSeat) {
    if a.row != b.row then StrLeq(a.row, b.row) else NumberKey(a) <= NumberKey(b)
  }

  lemma SeatLeqOrder()
    ensures Total(SeatLeq) && Transitive(SeatLeq)
  {
    forall a, b ensures SeatLeq(a, b) || SeatLeq(b, a) { StrLeqTotal(a.row, b.row); }
    forall a, b, c | SeatLeq(a, b) && SeatLeq(b, c) ensures SeatLeq(a, c) {
      if a.row != b.row && b.row != c.row {
        StrLeqTransitive(a.row, b.row, c.row);
        if a.row == c.row { StrLeqAntisymmetric(a.row, b.row); }
      }
    }
  }

  /** One row's entries, pushed by one step of the `forEach`. */
  method PushRow(all: seq<GridSeat>, cat: SeatCategory, kind: SeatType, row: string) returns (r: seq<GridSeat>)
    ensures r == all + RowSeats(cat, kind, row)
  {
    var free := Entries(cat.available, row, kind, cat.price, Free);
    var booked := Entries(cat.occupied, row, kind, cat.price, Booked);
    r := all + (free + booked);
  }

  /** The two `forEach` loops of `getAllSeats`, before the sort. */
  method CollectSeats(st: ShowtimeSeats) returns (all: seq<GridSeat>)
    ensures all == Collected(st)
  {
    all := [];
    var i := 0;
    while i < |st.standard.rows|
      invariant 0 <= i <= |st.standard.rows|
      invariant all == CategoryPrefix(st.standard, Standard, i)
    {
      all := PushRow(all, st.standard, Standard, st.standard.rows[i]);
      i := i + 1;
    }
    var k := 0;
    while k < |st.vip.rows|
      invariant 0 <= k <= |st.vip.rows|
      invariant all == CategorySeats(st.standard, Standard) + CategoryPrefix(st.vip, Vip, k)
    {
      all := PushRow(all, st.vip, Vip, st.vip.rows[k]);
      k := k + 1;
    }
  }

  /** `getAllSeats`: the collected entries, sorted by row and number. */
  method GetAllSeats(st: ShowtimeSeats) returns (seats: seq<GridSeat>)
    ensures multiset(seats) == multiset(Collected(st))
    ensures SortedBy(seats, SeatLeq)
  {
    var all := CollectSeats(st);
    SeatLeqOrder();
    SortBySorted(all, SeatLeq);
    seats := SortBy(all, SeatLeq);
  }

  /** Every free or booked id of a listed row appears in the grid with the category's type
      and price. */
  lemma {:induction false} CategoryHasRowSeat(cat: SeatCategory, kind: SeatType, n: nat, k: nat, id: string,
                                              status: GridStatus)
    requires k < n <= |cat.rows|
    requires status == Free ==> id in cat.available
    requires status == Booked ==> id in cat.occupied
    requires StartsWith(id, cat.rows[k])
    ensures MakeSeat(id, kind, cat.price, status) in CategoryPrefix(cat, kind, n)
  {
    RowSeatHas(cat, kind, cat.rows[k], id, status);
    CategoryHasRowEntry(cat, kind, n, k, MakeSeat(id, kind, cat.price, status));
  }

  /** An entry of row `k` is among the entries of any longer prefix of rows. */
  lemma CategoryHasRowEntry(cat: SeatCategory, kind: SeatType, n: nat, k: nat, g: GridSeat)
    requires k < n <= |cat.rows|
    requires g in RowSeats(cat, kind, cat.rows[k])
    ensures g in CategoryPrefix(cat, kind, n)
  {
    assert CategoryPrefix(cat, kind, k + 1) == CategoryPrefix(cat, kind, k) + RowSeats(cat, kind, cat.rows[k]);
    CategoryPrefixGrows(cat, kind, k + 1, n, g);
  }

  /** A later prefix holds every entry of an earlier one. */
  lemma {:induction false} CategoryPrefixGrows(cat: SeatCategory, kind: SeatType, m: nat, n: nat, g: GridSeat)
    requires m <= n <= |cat.rows|
    requires g in CategoryPrefix(cat, kind, m)
    ensures g in CategoryPrefix(cat, kind, n)
    decreases n - m
  {
    if m < n {
      assert CategoryPrefix(cat, kind, m + 1) == CategoryPrefix(cat, kind, m) + RowSeats(cat, kind, cat.rows[m]);
      CategoryPrefixGrows(cat, kind, m + 1, n, g);
    }
  }

  lemma RowSeatHas(cat: SeatCategory, kind: SeatType, row: string, id: string, status: GridStatus)
    requires status == Free ==> id in cat.available
    requires status == Booked ==> id in cat.occupied
    requires StartsWith(id, row)
    ensures MakeSeat(id, kind, cat.price, status) in RowSeats(cat, kind, row)
  {
    var free := RowEntries(cat.available, row, kind, cat.price, Free);
    var booked := RowEntries(cat.occupied, row, kind, cat.price, Booked);
    if status == Free {
      RowEntriesHas(cat.available, row, kind, cat.price, Free, id);
      InConcat(MakeSeat(id, kind, cat.price, status), free, booked);
    } else {
      RowEntriesHas(cat.occupied, row, kind, cat.price, Booked, id);
      InConcat(MakeSeat(id, kind, cat.price, status), free, booked);
    }
  }

  lemma RowEntriesHas(ids: seq<string>, row: string, kind: SeatType, price: int, status: GridStatus, id: string)
    requires id in ids && StartsWith(id, row)
    ensures MakeSeat(id, kind, price, status) in RowEntries(ids, row, kind, price, status)
  {
    RowEntriesMembers(ids, row, kind, price, status);
  }

  lemma InConcat<T>(x: T, a: seq<T>, b: seq<T>)
    ensures x in a + b <==> x in a || x in b
  {
  }

  /** Every grid entry comes from the category's own lists and starts with one of its rows. */
  lemma {:induction false} CategorySeatOrigin(cat: SeatCategory, kind: SeatType, n: nat, g: GridSeat)
    requires n <= |cat.rows|
    requires g in CategoryPrefix(cat, kind, n)
    ensures g.kind == kind && g.price == cat.price
    ensures g.status == Free ==> g.id in cat.available
    ensures g.status == Booked ==> g.id in cat.occupied
    ensures exists k :: 0 <= k < n && StartsWith(g.id, cat.rows[k])
  {
    if g in CategoryPrefix(cat, kind, n - 1) {
      CategorySeatOrigin(cat, kind, n - 1, g);
    } else {
      assert g in RowSeats(cat, kind, cat.rows[n - 1]);
      RowEntriesMembers(cat.available, cat.rows[n - 1], kind, cat.price, Free);
      RowEntriesMembers(cat.occupied, cat.rows[n - 1], kind, cat.price, Booked);
    }
  }

  // ---------------------------------------------------------------------------
  // Grouping by row

  predicate InRow(row: string, g: GridSeat) { g.row == row }

  /** The seats of one row, in grid order. */
  function RowGroup(seats: seq<GridSeat>, row: string): seq<GridSeat> {
    Filter(seats, (g: GridSeat) => InRow(row, g))
  }

  lemma RowGroupAppend(seats: seq<GridSeat>, seat: GridSeat, row: string)
    ensures RowGroup(seats + [seat], row) == RowGroup(seats, row) + (if seat.row == row then [seat] else [])
  {
    FilterAppend(seats, [seat], (g: GridSeat) => InRow(row, g));
  }

  function RowsOf(seats: seq<GridSeat>): (r: seq<string>)
    ensures |r| == |seats| && forall i :: 0 <= i < |seats| ==> r[i] == seats[i].row
  {
    seq(|seats|, i requires 0 <= i < |seats| => seats[i].row)
  }

  /** A row no earlier seat belongs to has an empty group so far. */
  lemma RowGroupEmpty(seats: seq<GridSeat>, row: string)
    ensures row !in RowsOf(seats) ==> RowGroup(seats, row) == []
  {
    var f := RowGroup(seats, row);
    if f != [] {
      assert f[0] in f;
      var k :| 0 <= k < |seats| && seats[k] == f[0];
      assert RowsOf(seats)[k] == row;
    }
  }

  /** The grouping of a prefix of the grid: the distinct rows in first-seen order, each
      mapped to its seats. */
  ghost predicate Grouped(seats: seq<GridSeat>, rows: seq<string>, groups: map<string, seq<GridSeat>>) {
    && rows == Distinct(RowsOf(seats))
    && (forall r :: r in groups <==> r in rows)
    && (forall r :: r in groups ==> groups[r] == RowGroup(seats, r))
  }

  /** One step of the `reduce`: create the seat's row when it is new, then push the seat. */
  function AddToGroups(groups: map<string, seq<GridSeat>>, seat: GridSeat): map<string, seq<GridSeat>> {
    if seat.row !in groups then groups[seat.row := [seat]]
    else groups[seat.row := groups[seat.row] + [seat]]
  }

  lemma GroupedStep(all: seq<GridSeat>, i: nat, rows: seq<string>, groups: map<string, seq<GridSeat>>)
    requires i < |all| && Grouped(all[..i], rows, groups)
    ensures Grouped(all[..i + 1], if all[i].row in groups then rows else rows + [all[i].row], AddToGroups(groups, all[i]))
  {
    var seats := all[..i];
    var seat := all[i];
    var next := all[..i + 1];
    assert next == seats + [seat];
    var rs := RowsOf(next);
    assert rs == RowsOf(seats) + [seat.row];
    assert rs[..|rs| - 1] == RowsOf(seats);
    assert seat.row in groups <==> seat.row in RowsOf(seats);
    var g := AddToGroups(groups, seat);
    forall r | r in g ensures g[r] == RowGroup(next, r) {
      RowGroupAppend(seats, seat, r);
      RowGroupEmpty(seats, r);
    }
  }

  /** `seatsByRow` and the order of `Object.entries`: the distinct rows in first-seen
      order, and for each row its seats in grid order. */
  method GroupByRow(seats: seq<GridSeat>) returns (rows: seq<string>, groups: map<string, seq<GridSeat>>)
    ensures rows == Distinct(RowsOf(seats))
    ensures forall r :: r in groups <==> r in rows
    ensures forall r :: r in groups ==> groups[r] == RowGroup(seats, r)
  {
    rows := [];
    groups := map[];
    var i := 0;
    while i < |seats|
      invariant 0 <= i <= |seats|
      invariant Grouped(seats[..i], rows, groups)
    {
      var seat := seats[i];
      GroupedStep(seats, i, rows, groups);
      if seat.row !in groups {
        rows := rows + [seat.row];
      }
      groups := AddToGroups(groups, seat);
      i := i + 1;
    }
    assert seats[..|seats|] == seats;
  }

  // ---------------------------------------------------------------------------
  // Selecting seats

  datatype SelectedSeat = SelectedSeat(id: string, kind: SeatType, price: int)

  predicate HasId(selected: seq<SelectedSeat>, id: string) {
    exists i :: 0 <= i < |selected| && selected[i].id == id
  }

  predicate IdIsNot(id: string, s: SelectedSeat) { s.id != id }

  datatype ClickResult = ClickResult(selection: seq<SelectedSeat>, alerted: bool)

  /** `handleSeatClick(seatId, seatType, price)`: release a selected seat, otherwise add it
      unless `MAX_SEATS` are taken, in which case the alert is shown. */
  function Click(selected: seq<SelectedSeat>, id: string, kind: SeatType, price: int): (r: ClickResult)
    ensures HasId(selected, id) ==>
      (!r.alerted && !HasId(r.selection, id) && forall s :: s in r.selection <==> s in selected && s.id != id)
    ensures !HasId(selected, id) && |selected| < MaxSeats ==>
      r == ClickResult(selected + [SelectedSeat(id, kind, price)], false)
    ensures !HasId(selected, id) && |selected| >= MaxSeats ==> r == ClickResult(selected, true)
  {
    if HasId(selected, id) then
      var s := Filter(selected, (x: SelectedSeat) => IdIsNot(id, x));
      assert forall i :: 0 <= i < |s| ==> s[i].id != id by {
        forall i | 0 <= i < |s| ensures s[i].id != id { assert s[i] in s; }
      }
      ClickResult(s, false)
    else if |selected| >= MaxSeats then ClickResult(selected, true)
    else ClickResult(selected + [SelectedSeat(id, kind, price)], false)
  }

  /** Clicking the seat held at position `k` of a selection with distinct ids removes exactly
      that position and keeps the other seats in their order. */
  lemma ClickReleasesThatPosition(selected: seq<SelectedSeat>, k: nat, kind: SeatType, price: int)
    requires k < |selected|
    requires forall i, j :: 0 <= i < j < |selected| ==> selected[i].id != selected[j].id
    ensures Click(selected, selected[k].id, kind, price).selection == selected[..k] + selected[k + 1..]
  {
    var id := selected[k].id;
    assert HasId(selected, id);
    assert forall i :: 0 <= i < |selected| && i != k ==> IdIsNot(id, selected[i]) by {
      forall i | 0 <= i < |selected| && i != k ensures IdIsNot(id, selected[i]) {
        if i < k { assert selected[i].id != selected[k].id; } else { assert selected[k].id != selected[i].id; }
      }
    }
    FilterRemovesOne(selected, k, (x: SelectedSeat) => IdIsNot(id, x));
  }

  /** Distinct ids, at most `MAX_SEATS` of them. */
  ghost predicate ValidSelection(selected: seq<SelectedSeat>) {
    |selected| <= MaxSeats && forall i, j :: 0 <= i < j < |selected| ==> selected[i].id != selected[j].id
  }

  lemma {:induction false} ReleaseKeepsDistinctIds(selected: seq<SelectedSeat>, id: string)
    requires forall i, j :: 0 <= i < j < |selected| ==> selected[i].id != selected[j].id
    ensures var r := Filter(selected, (x: SelectedSeat) => IdIsNot(id, x));
      |r| <= |selected| && forall i, j :: 0 <= i < j < |r| ==> r[i].id != r[j].id
  {
    if selected != [] {
      var x, tail := selected[0], selected[1..];
      assert selected == [x] + tail;
      DistinctIdsCons(x, tail);
      ReleaseKeepsDistinctIds(tail, id);
      var rt := Filter(tail, (y: SelectedSeat) => IdIsNot(id, y));
      if IdIsNot(id, x) {
        assert Filter(selected, (y: SelectedSeat) => IdIsNot(id, y)) == [x] + rt;
        DistinctIdsCons(x, rt);
      } else {
        assert Filter(selected, (y: SelectedSeat) => IdIsNot(id, y)) == rt;
      }
    }
  }

  /** Ids are distinct in `[x] + t` exactly when they are in `t` and no entry of `t` has `x`'s. */
  lemma DistinctIdsCons(x: SelectedSeat, t: seq<SelectedSeat>)
    ensures (forall i, j :: 0 <= i < j < |[x] + t| ==> ([x] + t)[i].id != ([x] + t)[j].id)
      <==> (forall i, j :: 0 <= i < j < |t| ==> t[i].id != t[j].id) && (forall y :: y in t ==> y.id != x.id)
  {
    var s := [x] + t;
    if (forall i, j :: 0 <= i < j < |s| ==> s[i].id != s[j].id) {
      forall i, j | 0 <= i < j < |t| ensures t[i].id != t[j].id {
        assert s[i + 1] == t[i] && s[j + 1] == t[j];
      }
      forall y | y in t ensures y.id != x.id {
        var k :| 0 <= k < |t| && t[k] == y;
        assert s[0] == x && s[k + 1] == y;
      }
    }
  }

  lemma ClickKeepsValid(selected: seq<SelectedSeat>, id: string, kind: SeatType, price: int)
    requires ValidSelection(selected)
    ensures ValidSelection(Click(selected, id, kind, price).selection)
  {
    if HasId(selected, id) {
      ReleaseKeepsDistinctIds(selected, id);
    } else if |selected| < MaxSeats {
      var r := selected + [SelectedSeat(id, kind, price)];
      forall i, j | 0 <= i < j < |r| ensures r[i].id != r[j].id {
        if j == |selected| { assert r[i] == selected[i]; }
      }
    }
  }

  /** Unlike the showtime seat page, a seat can be released when the limit is reached. */
  lemma ReleaseAtLimit(selected: seq<SelectedSeat>, id: string, kind: SeatType, price: int)
    requires |selected| == MaxSeats && HasId(selected, id)
    ensures !HasId(Click(selected, id, kind, price).selection, id)
    ensures !Click(selected, id, kind, price).alerted
  {
  }

  /** Clicking a free seat twice restores the selection. */
  lemma ClickTwiceRestores(selected: seq<SelectedSeat>, id: string, kind: SeatType, price: int)
    requires !HasId(selected, id) && |selected| < MaxSeats
    ensures Click(Click(selected, id, kind, price).selection, id, kind, price).selection == selected
  {
    var added := SelectedSeat(id, kind, price);
    var s1 := selected + [added];
    assert s1[|selected|] == added;
    assert HasId(s1, id);
    var p := (x: SelectedSeat) => IdIsNot(id, x);
    FilterAppend(selected, [added], p);
    forall i | 0 <= i < |selected| ensures p(selected[i]) {
      if !p(selected[i]) { assert HasId(selected, id); }
    }
    FilterAll(selected, p);
    assert Filter([added], p) == [];
  }

  /** The effect on `[selectedSeats]`: the sum of the selected prices. */
  function TotalPrice(selected: seq<SelectedSeat>): (r: int)
    ensures selected == [] ==> r == 0
    ensures |selected| == 1 ==> r == selected[0].price
  {
    SumOf(selected, (s: SelectedSeat) => s.price)
  }

  lemma TotalPriceAfterAdd(selected: seq<SelectedSeat>, s: SelectedSeat)
    ensures TotalPrice(selected + [s]) == TotalPrice(selected) + s.price
  {
    assert (selected + [s])[..|selected|] == selected;
  }

  /** What the component renders. */
  datatype View = LoadingView | ErrorView(message: string) | NoDataView | GridView

  function ViewOf(loading: bool, error: Option<string>, seatData: Option<(SeatCinema, SeatShowtime)>): (v: View)
    ensures v == LoadingView <==> loading
    ensures !loading && Truthy(error) ==> v == ErrorView(error.value) && v.message != ""
    ensures !loading && !Truthy(error) && seatData.None? ==> v == NoDataView
    ensures v == GridView <==> !loading && !Truthy(error) && seatData.Some?
  {
    if loading then LoadingView
    else if Truthy(error) then ErrorView(error.value)
    else if seatData.None? then NoDataView
    else GridView
  }

  class SeatPicker {
    const movieId: Option<string>
    const cinemaId: Option<string>
    const showtimeId: Option<string>
    var selectedSeats: seq<SelectedSeat>
    var seatData: Option<(SeatCinema, SeatShowtime)>
    var loading: bool
    var error: Option<string>
    var totalPrice: int

    ghost predicate Valid()
      reads this
    {
      ValidSelection(selectedSeats) && totalPrice == TotalPrice(selectedSeats)
    }

    constructor(movieId: Option<string>, cinemaId: Option<string>, showtimeId: Option<string>)
      ensures Valid()
      ensures this.movieId == movieId && this.cinemaId == cinemaId && this.showtimeId == showtimeId
      ensures selectedSeats == [] && seatData == None && loading && error == None && totalPrice == 0
    {
      this.movieId := movieId;
      this.cinemaId := cinemaId;
      this.showtimeId := showtimeId;
      selectedSeats := [];
      seatData := None;
      loading := true;
      error := None;
      totalPrice := 0;
    }

    /** The fetch effect: it runs only when all three ids are present; otherwise the
        component stays in its loading view. */
    method LoadSeats(response: SeatResponse)
      requires Valid()
      modifies this
      ensures Valid()
      ensures !(Truthy(movieId) && Truthy(cinemaId) && Truthy(showtimeId)) ==>
        loading == old(loading) && seatData == old(seatData) && error == old(error)
      ensures Truthy(movieId) && Truthy(cinemaId) && Truthy(showtimeId) ==>
        && !loading
        && var r := FetchSeatData(response, cinemaId.value, showtimeId.value);
        && (r.Ok? ==> seatData == Some(r.value) && error == old(error))
        && (r.Err? ==> error == Some(r.message) && seatData == old(seatData))
      ensures selectedSeats == old(selectedSeats) && totalPrice == old(totalPrice)
    {
      if Truthy(movieId) && Truthy(cinemaId) && Truthy(showtimeId) {
        loading := true;
        match FetchSeatData(response, cinemaId.value, showtimeId.value) {
          case Ok(data) => seatData := Some(data);
          case Err(msg) => error := Some(msg);
        }
        loading := false;
      }
    }

    /** A click on a seat button; booked seats do not call the handler. */
    method ClickSeat(seat: GridSeat) returns (alerted: bool)
      requires Valid()
      modifies this
      ensures Valid()
      ensures seat.status == Booked ==> selectedSeats == old(selectedSeats) && !alerted
      ensures seat.status == Free ==>
        var r := Click(old(selectedSeats), seat.id, seat.kind, seat.price);
        selectedSeats == r.selection && alerted == r.alerted
      ensures seatData == old(seatData) && loading == old(loading) && error == old(error)
    {
      alerted := false;
      if seat.status == Free {
        ClickKeepsValid(selectedSeats, seat.id, seat.kind, seat.price);
        var r := Click(selectedSeats, seat.id, seat.kind, seat.price);
        selectedSeats := r.selection;
        alerted := r.alerted;
        totalPrice := TotalPrice(selectedSeats);
      }
    }
  }
}
