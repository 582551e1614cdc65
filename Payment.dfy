/** The payment page (`src/pages/Payment/Payment.jsx`): a payment method is chosen, and
    paying turns the booking into a paid ticket appended to the stored tickets. The clock
    (`Date.now()`, `new Date().toISOString()`) is passed in. */
module Payment {
  import opened Js
  import opened Records

  /** The ids of `paymentMethods`. */
  const PaymentMethods: seq<string> := ["credit_card", "momo", "cash"]

  const SelectMethodError := "Please select a payment method"
  const PaymentFailed := "Payment processing failed. Please try again."
  const Paid := "paid"

  /** `ticketData`: the booking's fields unchanged, the method, `status: 'paid'`, the id
      `Date.now().toString()` and the purchase instant. */
  function MakeTicket(b: BookingData, paymentMethod: string, now: nat, isoNow: string): (t: Ticket)
    ensures t.id == NatToString(now)
    ensures t.paymentMethod == paymentMethod && t.status == Paid && t.purchaseDate == isoNow
  {
    Ticket(NatToString(now), b.movieId, b.movieTitle, b.cinema, b.hall, b.date, b.time, b.seats,
      b.totalAmount, paymentMethod, Paid, isoNow)
  }

  /** The booking a ticket was made from. */
  function TicketBooking(t: Ticket): BookingData {
    BookingData(t.movieId, t.movieTitle, t.cinema, t.hall, t.date, t.time, t.seats, t.totalAmount)
  }

  /** Every booking field reaches the ticket unchanged. */
  lemma TicketKeepsBooking(b: BookingData, paymentMethod: string, now: nat, isoNow: string)
    ensures TicketBooking(MakeTicket(b, paymentMethod, now, isoNow)) == b
  {
  }

  /** The ticket page path is that of the new ticket; distinct instants give distinct ids. */
  lemma TicketIdsDistinct(b: BookingData, m: string, now: nat, now': nat, iso: string, iso': string)
    requires now != now'
    ensures MakeTicket(b, m, now, iso).id != MakeTicket(b, m, now', iso').id
  {
    DigitsValueOfNatToString(now);
    DigitsValueOfNatToString(now');
  }

  /** `disabled={isProcessing || !selectedMethod}`. */
  predicate PayDisabled(isProcessing: bool, selectedMethod: Option<string>)
    ensures isProcessing ==> PayDisabled(isProcessing, selectedMethod)
    ensures selectedMethod.None? ==> PayDisabled(isProcessing, selectedMethod)
  {
    isProcessing || !Truthy(selectedMethod)
  }

  /** The button is usable exactly when nothing is being processed and a method is chosen. */
  lemma PayEnabledCases(isProcessing: bool, selectedMethod: Option<string>)
    ensures !PayDisabled(isProcessing, selectedMethod) <==>
      !isProcessing && selectedMethod.Some? && selectedMethod.value != ""
  {
  }

  /** The page, with the `tickets` entry of storage. */
  class PaymentState {
    /** `location.state.bookingData`; without it the page shows only an error. */
    const bookingData: Option<BookingData>
    var selectedMethod: Option<string>
    var isProcessing: bool
    var error: Option<string>
    var stored: seq<Ticket>

    constructor(bookingData: Option<BookingData>, stored: seq<Ticket>)
      ensures this.bookingData == bookingData && this.stored == stored
      ensures selectedMethod == None && !isProcessing && error == None
    {
      this.bookingData := bookingData;
      this.stored := stored;
      selectedMethod := None;
      isProcessing := false;
      error := None;
    }

    /** A click on one of the method cards. */
    method SelectMethod(m: string)
      requires m in PaymentMethods
      modifies this
      ensures selectedMethod == Some(m) && stored == old(stored) && error == old(error)
    {
      selectedMethod := Some(m);
    }

    /** `handlePayment`, run to its end. Without a method the error is set and nothing else
        changes. Otherwise the ticket is appended to storage and its page is the target,
        unless the processing throws (`fails`), which sets the failure message and leaves
        storage alone. Processing is over afterwards. */
    method HandlePayment(now: nat, isoNow: string, fails: bool) returns (navigateTo: Option<string>)
      requires bookingData.Some?
      modifies this
      ensures selectedMethod == old(selectedMethod)
      ensures !PayDisabled(old(isProcessing), selectedMethod) ==> error != Some(SelectMethodError)
      ensures !Truthy(selectedMethod) ==>
        error == Some(SelectMethodError) && stored == old(stored) && navigateTo.None?
        && isProcessing == old(isProcessing)
      ensures Truthy(selectedMethod) && fails ==>
        error == Some(PaymentFailed) && stored == old(stored) && navigateTo.None? && !isProcessing
      ensures Truthy(selectedMethod) && !fails ==>
        var t := MakeTicket(bookingData.value, selectedMethod.value, now, isoNow);
        && stored == old(stored) + [t]
        && navigateTo == Some("/tickets/" + t.id)
        && error == None && !isProcessing
    {
      if !Truthy(selectedMethod) {
        error := Some(SelectMethodError);
        return None;
      }
      isProcessing := true;
      error := None;
      if fails {
        error := Some(PaymentFailed);
        navigateTo := None;
      } else {
        var ticketData := MakeTicket(bookingData.value, selectedMethod.value, now, isoNow);
        var existingTickets := stored;
        stored := existingTickets + [ticketData];
        navigateTo := Some("/tickets/" + ticketData.id);
      }
      isProcessing := false;
    }
  }
}
