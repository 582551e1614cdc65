/** Records handed from page to page: the booking summary the seat page passes on to
    payment, and the ticket the payment page stores. */
module Records {
  import opened Js

  /** What the seat page passes to payment through the router state. */
  datatype BookingData = BookingData(
    movieId: string,
    movieTitle: string,
    cinema: string,
    hall: string,
    date: Option<string>,
    time: Option<string>,
    seats: seq<string>,
    totalAmount: int)

  /** A stored ticket: the booking, the payment method, `status` and the purchase instant. */
  datatype Ticket = Ticket(
    id: string,
    movieId: string,
    movieTitle: string,
    cinema: string,
    hall: string,
    date: Option<string>,
    time: Option<string>,
    seats: seq<string>,
    totalAmount: int,
    paymentMethod: string,
    status: string,
    purchaseDate: string)
}
