/** How long the adapter tells the device to wait for a vehicle: widened on silence, eased back on
    success (core/adapter/src/elm327.rs). */
module ResponseWindow {
  import opened Wrappers

  const WINDOW_DEFAULT := 200
  const WINDOW_MAX := 1000
  const ATST_RESOLUTION := 4

  function Widened(window: nat): nat {
    if 2 * window < WINDOW_MAX then 2 * window else WINDOW_MAX
  }

  /** One step back towards the proven window: a quarter of the distance, at least one. */
  function Eased(window: nat, proven: nat): (w: nat)
    requires proven <= window
    ensures proven <= w <= window
  {
    window - (window - proven + 3) / 4
  }

  predicate WindowOk(window: nat, proven: Option<nat>) {
    WINDOW_DEFAULT <= window <= WINDOW_MAX && (proven.Some? ==> WINDOW_DEFAULT <= proven.value <= window)
  }

  /** Three quarters of the gap are left, rounded down. */
  lemma EasingShrinks(window: nat, proven: nat)
    requires proven <= window
    ensures Eased(window, proven) - proven == 3 * (window - proven) / 4
  {
  }

  function EasedTimes(window: nat, proven: nat, n: nat): (w: nat)
    requires proven <= window
    ensures proven <= w
  {
    if n == 0 then window else EasedTimes(Eased(window, proven), proven, n - 1)
  }

  /** The gap left after `n` successes. */
  function Gap(g: nat, n: nat): nat {
    if n == 0 then g else Gap(3 * g / 4, n - 1)
  }

  lemma {:induction false} EasedIsGap(window: nat, proven: nat, n: nat)
    requires proven <= window
    ensures EasedTimes(window, proven, n) == proven + Gap(window - proven, n)
  {
    if n > 0 {
      EasingShrinks(window, proven);
      EasedIsGap(Eased(window, proven), proven, n - 1);
    }
  }

  lemma {:induction false} GapMonotone(a: nat, b: nat, n: nat)
    requires a <= b
    ensures Gap(a, n) <= Gap(b, n)
  {
    if n > 0 {
      GapMonotone(3 * a / 4, 3 * b / 4, n - 1);
    }
  }

  lemma GapThree(g: nat, n: nat)
    ensures Gap(g, n + 3) == Gap(3 * (3 * (3 * g / 4) / 4) / 4, n)
  {
    assert Gap(g, n + 3) == Gap(3 * g / 4, n + 2);
    assert Gap(3 * g / 4, n + 2) == Gap(3 * (3 * g / 4) / 4, n + 1);
  }

  lemma GapCloses()
    ensures Gap(800, 21) == 0
  {
    hide Gap;
    GapThree(800, 18);
    GapThree(337, 15);
    GapThree(141, 12);
    GapThree(58, 9);
    GapThree(24, 6);
    GapThree(9, 3);
    GapThree(3, 0);
    GapNone();
  }

  lemma GapNone()
    ensures Gap(0, 0) == 0
  {
  }

  /** From any window the adapter can have, 21 successes bring it to the proven one. */
  lemma EasingReaches(window: nat, proven: Option<nat>)
    requires WindowOk(window, proven) && proven.Some?
    ensures EasedTimes(window, proven.value, 21) == proven.value
  {
    EasedIsGap(window, proven.value, 21);
    GapMonotone(window - proven.value, 800, 21);
    GapCloses();
  }
}
