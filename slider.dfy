/** The content slider's autoplay: each tick shows the next slide, wrapping after the last. */
module Slider {

  /**
   * `(currentSlide + 1) % slides.length`. The slider only starts with two slides or more,
   * and the current slide is always one of them.
   */
  function NextSlide(current: nat, count: nat): (next: nat)
    requires 2 <= count && current < count
    ensures next < count
    ensures next == current + 1 || (current == count - 1 && next == 0)
    ensures next != current
  {
    (current + 1) % count
  }

  /** The slide shown after `ticks` autoplay ticks starting from `start`. */
  function AfterTicks(start: nat, count: nat, ticks: nat): (slide: nat)
    requires 2 <= count && start < count
    ensures slide < count
  {
    if ticks == 0 then start else NextSlide(AfterTicks(start, count, ticks - 1), count)
  }

  /** Within one lap the slider moves `ticks` places forward, wrapping past the last slide once. */
  lemma {:induction false} AfterTicksWithinLap(start: nat, count: nat, ticks: nat)
    requires 2 <= count && start < count && ticks <= count
    ensures AfterTicks(start, count, ticks) == if start + ticks < count then start + ticks else start + ticks - count
  {
    if ticks > 0 {
      AfterTicksWithinLap(start, count, ticks - 1);
    }
  }

  /** Ticking `a` times and then `b` times is ticking `a + b` times. */
  lemma {:induction false} AfterTicksCompose(start: nat, count: nat, a: nat, b: nat)
    requires 2 <= count && start < count
    ensures AfterTicks(AfterTicks(start, count, a), count, b) == AfterTicks(start, count, a + b)
  {
    if b > 0 {
      AfterTicksCompose(start, count, a, b - 1);
    }
  }

  /** Autoplay reaches every slide within one lap, and every `count` ticks it is back where it was. */
  lemma AutoplayCycles(start: nat, count: nat, target: nat, ticks: nat)
    requires 2 <= count && start < count && target < count
    ensures AfterTicks(start, count, if start <= target then target - start else target + count - start) == target
    ensures AfterTicks(start, count, ticks + count) == AfterTicks(start, count, ticks)
  {
    AfterTicksWithinLap(start, count, if start <= target then target - start else target + count - start);
    var here := AfterTicks(start, count, ticks);
    AfterTicksCompose(start, count, ticks, count);
    AfterTicksWithinLap(here, count, count);
  }
}
