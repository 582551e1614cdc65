/** The static catalogue the booking pages read: movies, the cinemas showing them,
    their halls with seat maps, and the showtimes of each hall. */
module Catalog {
  import opened Js

  /** The two kinds of seat a hall distinguishes. */
  datatype SeatType = Standard | Vip

  /** A hall's seat map: row labels, seats per row, the VIP rows and the price of each
      seat type (`seatTypes.standard.price`, `seatTypes.vip.price`). */
  datatype SeatMap = SeatMap(
    rows: seq<string>,
    columns: nat,
    vipRows: seq<string>,
    standardPrice: int,
    vipPrice: int)

  datatype Showtime = Showtime(date: string, time: string)

  datatype Hall = Hall(id: string, name: string, kind: string, seatMap: SeatMap, showtimes: seq<Showtime>)

  datatype Cinema = Cinema(id: string, name: string, address: string, halls: seq<Hall>)

  datatype Movie = Movie(id: string, title: string, cinemas: seq<Cinema>)

  /** A row is VIP exactly when the seat map lists it among its VIP rows. */
  function RowType(sm: SeatMap, row: string): (t: SeatType)
    ensures t == Vip <==> row in sm.vipRows
  {
    if row in sm.vipRows then Vip else Standard
  }

  /** `seatTypes[type].price`. */
  function TypePrice(sm: SeatMap, t: SeatType): (p: int)
    ensures t == Vip ==> p == sm.vipPrice
    ensures t == Standard ==> p == sm.standardPrice
  {
    match t
    case Vip => sm.vipPrice
    case Standard => sm.standardPrice
  }
}
