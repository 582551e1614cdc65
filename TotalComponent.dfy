/** The summary bar under the showtime seat picker (`src/components/Total.jsx`): how many
    seats are chosen, what they cost together, and whether the continue button works. */
module TotalComponent {
  import opened Js
  import SeatComponent

  /** The `seats` prop: the picker's selection entries. */
  type SeatLine = SeatComponent.SelectedSeat

  /** `seats.reduce((sum, seat) => sum + seat.price, 0)`. */
  function TotalAmount(seats: seq<SeatLine>): (r: int)
    ensures seats == [] ==> r == 0
    ensures |seats| == 1 ==> r == seats[0].price
  {
    SumOf(seats, (s: SeatLine) => s.price)
  }

  /** What the bar shows. */
  datatype Summary = Summary(seatCount: nat, totalAmount: int, continueEnabled: bool)

  /** The bar: the count is the number of seats, and continuing is possible exactly when
      at least one seat is chosen. */
  function SummaryOf(seats: seq<SeatLine>): (s: Summary)
    ensures s.seatCount == |seats|
    ensures s.continueEnabled <==> s.seatCount > 0
    ensures !s.continueEnabled <==> seats == []
    ensures seats == [] ==> s.totalAmount == 0
  {
    var seatCount := |seats|;
    Summary(seatCount, TotalAmount(seats), !(seatCount == 0))
  }

  /** The bar and the picker's own running total agree. */
  lemma AgreesWithPicker(seats: seq<SeatLine>)
    ensures SummaryOf(seats).totalAmount == SeatComponent.TotalPrice(seats)
  {
  }

  /** Appending seats adds their amounts. */
  lemma TotalAmountAppend(a: seq<SeatLine>, b: seq<SeatLine>)
    ensures TotalAmount(a + b) == TotalAmount(a) + TotalAmount(b)
  {
    SumOfAppend(a, b, (s: SeatLine) => s.price);
  }

  /** A plain sum: the order of the seats does not matter. */
  lemma TotalAmountOrderIrrelevant(a: seq<SeatLine>, b: seq<SeatLine>)
    requires multiset(a) == multiset(b)
    ensures TotalAmount(a) == TotalAmount(b)
  {
    SumOfPermutation(a, b, (s: SeatLine) => s.price);
  }

  /** When every price lies between `lo` and `hi`, so does the average: the total lies
      between `|seats| * lo` and `|seats| * hi`. */
  lemma {:induction false} TotalAmountBounds(seats: seq<SeatLine>, lo: int, hi: int)
    requires forall i :: 0 <= i < |seats| ==> lo <= seats[i].price <= hi
    ensures |seats| * lo <= TotalAmount(seats) <= |seats| * hi
  {
    if seats != [] {
      var init := seats[..|seats| - 1];
      assert forall i :: 0 <= i < |init| ==> init[i] == seats[i];
      TotalAmountBounds(init, lo, hi);
      assert TotalAmount(seats) == TotalAmount(init) + seats[|seats| - 1].price;
      assert |seats| * lo == |init| * lo + lo && |seats| * hi == |init| * hi + hi;
    }
  }
}
