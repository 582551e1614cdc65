/** The home page carousel (`src/pages/Home/Banner.jsx`): one slide per movie, advanced
    by a timer, by the arrow buttons and swipes (`paginate(±1)`), or jumped to by a dot. */
module Banner {

  /** JavaScript's `%`: the remainder takes the sign of the dividend. */
  function JsRem(a: int, n: int): (r: int)
    requires n > 0
    ensures a >= 0 ==> r == a % n
    ensures a < 0 ==> r <= 0
    ensures -n < r < n
  {
    if a >= 0 then a % n else -((-a) % n)
  }

  /** The timer's step: `(prevIndex + 1) % movies.length`. */
  function Step(i: int, n: int): (r: int)
    requires n > 0
    ensures i >= -1 ==> 0 <= r < n
    ensures i < -1 ==> r <= 0
  {
    JsRem(i + 1, n)
  }

  /** `paginate(d)`: `(prevIndex + d + movies.length) % movies.length`. */
  function PaginateIndex(i: int, d: int, n: int): (r: int)
    requires n > 0
    ensures i + d + n >= 0 ==> 0 <= r < n
    ensures i + d + n < 0 ==> r <= 0
  {
    JsRem(i + d + n, n)
  }

  /** A dot click on `target`: the new index, and the direction `target > current ? 1 : -1`. */
  function DotClick(current: int, target: int): (r: (int, int))
    ensures r.0 == target
    ensures r.1 == 1 <==> target > current
    ensures r.1 == -1 <==> target <= current
  {
    (target, if target > current then 1 else -1)
  }

  /** The timer step stays on a slide. */
  lemma StepInRange(i: int, n: int)
    requires n > 0 && 0 <= i < n
    ensures 0 <= Step(i, n) < n
    ensures Step(i, n) == if i == n - 1 then 0 else i + 1
  {
  }

  /** The arrows stay on a slide. */
  lemma PaginateInRange(i: int, d: int, n: int)
    requires n > 0 && 0 <= i < n && (d == 1 || d == -1)
    ensures 0 <= PaginateIndex(i, d, n) < n
    ensures d == 1 ==> PaginateIndex(i, d, n) == if i == n - 1 then 0 else i + 1
    ensures d == -1 ==> PaginateIndex(i, d, n) == if i == 0 then n - 1 else i - 1
  {
  }

  /** The right arrow does what the timer does. */
  lemma PaginateForwardIsStep(i: int, n: int)
    requires n > 0 && 0 <= i < n
    ensures PaginateIndex(i, 1, n) == Step(i, n)
  {
    PaginateInRange(i, 1, n);
    StepInRange(i, n);
  }

  /** The left arrow undoes the right arrow, and the other way round. */
  lemma PaginateUndo(i: int, n: int)
    requires n > 0 && 0 <= i < n
    ensures PaginateIndex(PaginateIndex(i, 1, n), -1, n) == i
    ensures PaginateIndex(PaginateIndex(i, -1, n), 1, n) == i
  {
    PaginateInRange(i, 1, n);
    PaginateInRange(i, -1, n);
    PaginateInRange(PaginateIndex(i, 1, n), -1, n);
    PaginateInRange(PaginateIndex(i, -1, n), 1, n);
  }

  /** `k` timer steps from `i`. */
  function Steps(i: int, k: nat, n: int): int
    requires n > 0
  {
    if k == 0 then i else Step(Steps(i, k - 1, n), n)
  }

  /** Within one round, `k` steps from a slide move `k` slides on, wrapping past the last. */
  lemma {:induction false} StepsAdvance(i: int, k: nat, n: int)
    requires n > 0 && 0 <= i < n && k <= n
    ensures Steps(i, k, n) == if i + k < n then i + k else i + k - n
  {
    if k > 0 {
      StepsAdvance(i, k - 1, n);
      StepInRange(Steps(i, k - 1, n), n);
    }
  }

  /** A full round of `n` timer steps returns to the starting slide. */
  lemma FullRoundReturns(i: int, n: int)
    requires n > 0 && 0 <= i < n
    ensures Steps(i, n, n) == i
  {
    StepsAdvance(i, n, n);
  }

  /** The carousel component. */
  class Carousel {
    /** `movies.length`. */
    const n: nat
    var currentIndex: int
    var direction: int

    /** The slide shown is one of the movies. */
    ghost predicate Valid()
      reads this
    {
      n > 0 ==> 0 <= currentIndex < n
    }

    /** Nothing is rendered, and no timer runs, without movies. */
    predicate Rendered()
      reads this
    {
      n > 0
    }

    constructor(n: nat)
      ensures Valid() && this.n == n && currentIndex == 0 && direction == 0
    {
      this.n := n;
      currentIndex := 0;
      direction := 0;
    }

    /** One firing of the 5 s interval; there is no interval without movies. */
    method Tick()
      requires Valid()
      modifies this
      ensures Valid()
      ensures n == 0 ==> currentIndex == old(currentIndex) && direction == old(direction)
      ensures n > 0 ==> currentIndex == Step(old(currentIndex), n) && direction == 1
    {
      if n > 0 {
        direction := 1;
        currentIndex := (currentIndex + 1) % n;
        StepInRange(old(currentIndex), n);
      }
    }

    /** An arrow button or a swipe (rendered only with movies). */
    method Paginate(d: int)
      requires Valid() && Rendered() && (d == 1 || d == -1)
      modifies this
      ensures Valid()
      ensures currentIndex == PaginateIndex(old(currentIndex), d, n) && direction == d
    {
      direction := d;
      PaginateInRange(currentIndex, d, n);
      currentIndex := PaginateIndex(currentIndex, d, n);
    }

    /** A click on dot `index`, one per movie. */
    method ClickDot(index: nat)
      requires Valid() && index < n
      modifies this
      ensures Valid()
      ensures (currentIndex, direction) == DotClick(old(currentIndex), index)
    {
      direction := if index > currentIndex then 1 else -1;
      currentIndex := index;
    }
  }
}
