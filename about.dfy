/** The about section: the years-active figure, the count-up number and the
    flip cards. */
module About {

  /** The year of the company's start date, 2025-09-25. */
  const StartYear := 2025

  /** Whole calendar years since the start year, never negative. */
  function YearsActive(currentYear: int): (r: nat)
    ensures r >= currentYear - StartYear
    ensures currentYear <= StartYear ==> r == 0
    ensures currentYear > StartYear ==> r == currentYear - StartYear
  {
    if currentYear - StartYear > 0 then currentYear - StartYear else 0
  }

  /** The figure never falls as the calendar moves on. */
  lemma YearsActiveMonotone(y1: int, y2: int)
    requires y1 <= y2
    ensures YearsActive(y1) <= YearsActive(y2)
  {
  }

  /** The count-up animation's length and step, in milliseconds. */
  const Duration := 800
  const StepMs := 16

  /** Ticks the animation is planned to take, `duration / step`, or 1 should
      that be zero. */
  const Steps: int := if Duration / StepMs != 0 then Duration / StepMs else 1

  /** Number of ticks a run takes: `current` grows by `end / Steps` per tick
      and the run ends on the first tick at which `current >= end`. */
  function RunLength(end: int): (n: nat)
    ensures n >= 1
    ensures end > 0 ==> n == Steps
    ensures end <= 0 ==> n == 1
  {
    if end > 0 then Steps else 1
  }

  /** `current` after `k` ticks, multiplied by `Steps` so that it is exact:
      each tick adds `end / Steps` to `current`, that is `end` to this sum. */
  function Accumulated(end: int, k: nat): int
    decreases k
  {
    if k == 0 then 0 else Accumulated(end, k - 1) + end
  }

  /** The values a full run displays, one per tick: the floor of `current`
      after tick `k + 1`, and exactly `end` on the last tick. */
  function Schedule(end: int): (s: seq<int>)
    ensures |s| == RunLength(end)
  {
    seq(RunLength(end), k requires 0 <= k < RunLength(end) =>
      if k + 1 == RunLength(end) then end else Accumulated(end, k + 1) / Steps)
  }

  /** The sum after `k` ticks is `k * end`. */
  lemma {:induction false} AccumulatedIsProduct(end: int, k: nat)
    ensures Accumulated(end, k) == k * end
    decreases k
  {
    if k > 0 {
      AccumulatedIsProduct(end, k - 1);
    }
  }

  /** The tick at which `current` first reaches `end` is the run's last:
      `current >= end` holds after tick `RunLength(end)` and after no
      earlier tick. */
  lemma RunEndsWhenCurrentReachesEnd(end: int, k: nat)
    requires 1 <= k <= RunLength(end)
    ensures (Accumulated(end, k) >= end * Steps) <==> k == RunLength(end)
  {
    AccumulatedIsProduct(end, k);
    assert Steps == 50;
    if end > 0 && k < Steps {
      MulStrictlyBelow(k, end);
    }
  }

  /** k * e < 50 * e for 1 <= k < 50 and e > 0. */
  lemma MulStrictlyBelow(k: int, e: int)
    requires 1 <= k < Steps && e > 0
    ensures k * e < e * Steps
  {
    assert Steps == 50;
    assert (50 - k) * e > 0;
  }

  /** The last displayed value is exactly `end`. */
  lemma ScheduleEndsAtEnd(end: int)
    ensures |Schedule(end)| >= 1 && Schedule(end)[|Schedule(end)| - 1] == end
  {
  }

  /** For a positive target every value before the last is below `end` and
      not negative. */
  lemma ScheduleBelowEnd(end: int, k: nat)
    requires end > 0 && k + 1 < |Schedule(end)|
    ensures 0 <= Schedule(end)[k] < end
  {
    assert Schedule(end)[k] == Accumulated(end, k + 1) / Steps;
    RunEndsWhenCurrentReachesEnd(end, k + 1);
    AccumulatedNonNegative(end, k + 1);
    DivBelow(Accumulated(end, k + 1), end);
  }

  /** For a non-negative target the sum never goes below zero. */
  lemma {:induction false} AccumulatedNonNegative(end: int, k: nat)
    requires end >= 0
    ensures Accumulated(end, k) >= 0
    decreases k
  {
    if k > 0 {
      AccumulatedNonNegative(end, k - 1);
    }
  }

  /** For a non-negative target the sum never decreases from tick to tick. */
  lemma {:induction false} AccumulatedMonotone(end: int, j: nat, k: nat)
    requires end >= 0 && j <= k
    ensures Accumulated(end, j) <= Accumulated(end, k)
    decreases k
  {
    if j < k {
      AccumulatedMonotone(end, j, k - 1);
    }
  }

  /** x < e * 50 and 0 <= x give 0 <= x / 50 < e. */
  lemma DivBelow(x: int, e: int)
    requires 0 <= x < e * Steps
    ensures 0 <= x / Steps < e
  {
    assert Steps == 50;
  }

  /** For a non-negative target the displayed values never decrease. */
  lemma ScheduleMonotone(end: int, j: nat, k: nat)
    requires end >= 0 && j <= k < |Schedule(end)|
    ensures Schedule(end)[j] <= Schedule(end)[k]
  {
    if end > 0 && j < k {
      if k + 1 == |Schedule(end)| {
        ScheduleBelowEnd(end, j);
      } else {
        AccumulatedMonotone(end, j + 1, k + 1);
        DivMonotone(Accumulated(end, j + 1), Accumulated(end, k + 1));
      }
    }
  }

  /** Division by `Steps` is monotone. */
  lemma DivMonotone(a: int, b: int)
    requires a <= b
    ensures a / Steps <= b / Steps
  {
    assert Steps == 50;
  }

  function Min(a: int, b: int): int { if a <= b then a else b }

  /** The count-up effect for target `end`. Out of view, or with reduced
      motion, it shows `end` at once and starts no timer. Otherwise `current`
      starts at 0 and the loop runs one iteration per interval callback, for
      the `ticks` callbacks the host delivers before the effect's cleanup
      clears the interval. `current` is kept multiplied by `Steps`, so that it
      is exact. Returns the values passed to `setCount`, in order, and whether
      an interval was started. */
  method CountUpEffect(end: int, isInView: bool, reduceMotion: bool, ticks: nat)
    returns (updates: seq<int>, started: bool)
    ensures started == (isInView && !reduceMotion)
    ensures !started ==> updates == [end]
    ensures started ==> updates == Schedule(end)[..Min(ticks, RunLength(end))]
  {
    if !isInView || reduceMotion {
      updates, started := [end], false;
      return;
    }
    started := true;
    var scaled := 0;
    var running := true;
    var fired: nat := 0;
    updates := [];
    while running && fired < ticks
      invariant fired <= ticks && fired <= RunLength(end)
      invariant scaled == Accumulated(end, fired)
      invariant running <==> fired < RunLength(end)
      invariant updates == Schedule(end)[..fired]
      decreases ticks - fired
    {
      scaled := scaled + end;
      fired := fired + 1;
      RunEndsWhenCurrentReachesEnd(end, fired);
      if scaled >= end * Steps {
        updates := updates + [end];
        running := false;
      } else {
        updates := updates + [scaled / Steps];
      }
      assert Schedule(end)[..fired] == Schedule(end)[..fired - 1] + [Schedule(end)[fired - 1]];
    }
  }

  /** A flip card: starts unflipped and every click toggles it. */
  class FlipCard {
    var flipped: bool

    constructor ()
      ensures !flipped
    {
      flipped := false;
    }

    method Click()
      modifies this
      ensures flipped == Toggled(old(flipped))
    {
      flipped := Toggled(flipped);
    }
  }

  /** The click's update `v => !v`. */
  function Toggled(v: bool): (r: bool)
    ensures r != v
  {
    !v
  }

  /** Two clicks restore a card. */
  method ClickTwice(c: FlipCard)
    modifies c
    ensures c.flipped == old(c.flipped)
  {
    c.Click();
    c.Click();
  }
}
