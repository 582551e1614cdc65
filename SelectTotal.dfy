/** The order summary beside the seat grid (`src/pages/Select/Total.jsx`): one line per
    selected seat with its type and price, the total, and the proceed button. */
module SelectTotal {
  import opened Js
  import opened Catalog

  /** The `hall` prop: the hall may be absent, and so may its seat map. */
  datatype HallProp = HallProp(seatMap: Option<SeatMap>)

  /** `seatId.charAt(0)`: the first character, or the empty string. */
  function RowOf(seatId: string): (r: string)
    ensures |r| <= 1 && r <= seatId
    ensures seatId != [] ==> r == [seatId[0]]
  {
    if seatId == [] then [] else seatId[..1]
  }

  /** `getSeatType`: VIP exactly when the seat map lists the seat's first character. */
  function TypeOf(hall: Option<HallProp>, seatId: string): (t: SeatType)
    ensures t == Vip <==> hall.Some? && hall.value.seatMap.Some? && RowOf(seatId) in hall.value.seatMap.value.vipRows
  {
    if hall.None? || hall.value.seatMap.None? then Standard
    else RowType(hall.value.seatMap.value, RowOf(seatId))
  }

  /** `getSeatPrice`. */
  function PriceOf(hall: Option<HallProp>, seatId: string): (p: int)
    ensures hall.None? || hall.value.seatMap.None? ==> p == 0
  {
    if hall.None? || hall.value.seatMap.None? then 0
    else
      var sm := hall.value.seatMap.value;
      TypePrice(sm, if RowOf(seatId) in sm.vipRows then Vip else Standard)
  }

  /** The price a line shows always belongs to the type the same line shows. */
  lemma PriceMatchesType(sm: SeatMap, seatId: string)
    ensures PriceOf(Some(HallProp(Some(sm))), seatId) == TypePrice(sm, TypeOf(Some(HallProp(Some(sm))), seatId))
  {
  }

  /** The total: `selectedSeats.reduce((sum, seatId) => sum + getSeatPrice(seatId), 0)`. */
  function Total(hall: Option<HallProp>, seats: seq<string>): (r: int)
    ensures seats == [] ==> r == 0
    ensures |seats| == 1 ==> r == PriceOf(hall, seats[0])
  {
    SumOf(seats, (s: string) => PriceOf(hall, s))
  }

  /** Adding seats adds their prices. */
  lemma TotalAppend(hall: Option<HallProp>, a: seq<string>, b: seq<string>)
    ensures Total(hall, a + b) == Total(hall, a) + Total(hall, b)
  {
    SumOfAppend(a, b, (s: string) => PriceOf(hall, s));
  }

  /** The order in which seats were picked does not change the total. */
  lemma TotalOrderIrrelevant(hall: Option<HallProp>, a: seq<string>, b: seq<string>)
    requires multiset(a) == multiset(b)
    ensures Total(hall, a) == Total(hall, b)
  {
    SumOfPermutation(a, b, (s: string) => PriceOf(hall, s));
  }

  /** Without a hall or a seat map every seat is free of charge. */
  lemma TotalWithoutSeatMap(hall: Option<HallProp>, seats: seq<string>)
    requires hall.None? || hall.value.seatMap.None?
    ensures Total(hall, seats) == 0
  {
    SumOfZero(seats, (s: string) => PriceOf(hall, s));
  }

  predicate IsVipSeat(sm: SeatMap, seatId: string) { RowOf(seatId) in sm.vipRows }

  /** The total is the VIP price per VIP seat plus the standard price per other seat. */
  lemma TotalByType(sm: SeatMap, seats: seq<string>)
    ensures var vip := Count(seats, (s: string) => IsVipSeat(sm, s));
      Total(Some(HallProp(Some(sm))), seats) == vip * sm.vipPrice + (|seats| - vip) * sm.standardPrice
  {
    SumOfTwoValued(seats, (s: string) => PriceOf(Some(HallProp(Some(sm))), s), (s: string) => IsVipSeat(sm, s),
      sm.vipPrice, sm.standardPrice);
  }

  /** Two seats of the same row cost the same. */
  lemma SameRowSamePrice(hall: Option<HallProp>, a: string, b: string)
    requires a != [] && b != [] && a[0] == b[0]
    ensures PriceOf(hall, a) == PriceOf(hall, b) && TypeOf(hall, a) == TypeOf(hall, b)
  {
  }

  /** What the bottom of the summary shows. */
  datatype Footer = TotalAndProceed(total: int) | SelectPrompt

  /** The total and the proceed button for a non-empty selection, the prompt otherwise. */
  function FooterOf(hall: Option<HallProp>, seats: seq<string>): (f: Footer)
    ensures f.SelectPrompt? <==> seats == []
    ensures f.TotalAndProceed? ==> f.total == Total(hall, seats)
  {
    if |seats| > 0 then TotalAndProceed(Total(hall, seats)) else SelectPrompt
  }
}
