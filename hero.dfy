// The hero banner's background slide counter: it starts at 0 and each timer
// tick moves it one picture on, wrapping after the last. The timer is outside the
// model; each call of Tick is one firing.
module HeroSlides {

  /** `images.length`: three background pictures. */
  const SlideCount: int := 3

  /** JavaScript's `%`, which truncates toward zero (Dafny's is Euclidean). */
  function JsRem(a: int, b: int): int
    requires b > 0
  {
    if a >= 0 then a % b else -((-a) % b)
  }

  /**
   * The timer callback: one more than the previous index, reduced by the number
   * of slides with JavaScript's remainder. On the slide range it goes up by one
   * and wraps from the last slide to the first.
   */
  function Next(prev: int): (r: int)
    ensures 0 <= prev < SlideCount ==> 0 <= r < SlideCount
    ensures prev == SlideCount - 1 ==> r == 0
    ensures 0 <= prev < SlideCount - 1 ==> r == prev + 1
  {
    JsRem(prev + 1, SlideCount)
  }

  /** The index after `n` ticks. */
  function Ticks(start: int, n: nat): int
  {
    if n == 0 then start else Next(Ticks(start, n - 1))
  }

  lemma {:induction false} TicksInRange(start: int, n: nat)
    requires 0 <= start < SlideCount
    ensures 0 <= Ticks(start, n) < SlideCount
  {
    if n > 0 {
      TicksInRange(start, n - 1);
    }
  }

  /** `n` ticks after a start on the range land on `(start + n) mod 3`. */
  lemma {:induction false} TicksCount(start: int, n: nat)
    requires 0 <= start < SlideCount
    ensures Ticks(start, n) == (start + n) % SlideCount
  {
    if n > 0 {
      TicksCount(start, n - 1);
    }
  }

  /** After every multiple of `images.length` ticks the index is back where it started. */
  lemma FullCycle(start: int, k: nat)
    requires 0 <= start < SlideCount
    ensures Ticks(start, k * SlideCount) == start
  {
    TicksCount(start, k * SlideCount);
    assert (start + k * SlideCount) % SlideCount == start;
  }

  class Slider {
    /** `index` state: which background picture is shown. */
    var index: int

    ghost predicate Valid()
      reads this
    {
      0 <= index < SlideCount
    }

    constructor ()
      ensures Valid() && index == 0
    {
      index := 0;
    }

    /** One firing of the ten-second interval. */
    method Tick()
      requires Valid()
      modifies this
      ensures Valid()
      ensures index == Next(old(index))
      ensures old(index) == SlideCount - 1 ==> index == 0
      ensures old(index) < SlideCount - 1 ==> index == old(index) + 1
    {
      index := Next(index);
    }
  }
}
