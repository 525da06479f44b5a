/**
 * The shared animation clock of updateAnimations: a counter that wraps every 8 frames
 * and advances a 4-phase frame index, which also arms the spikes in phases 2 and 3.
 */
module Animation {
  const AnimationSpeed: int := 8
  const AnimationPhases: int := 4

  /** The counter after the given number of updates from (0, 0). */
  function CounterAt(ticks: nat): int {
    ticks % AnimationSpeed
  }

  /** The frame index after the given number of updates from (0, 0). */
  function PhaseAt(ticks: nat): int {
    (ticks / AnimationSpeed) % AnimationPhases
  }

  /**
   * One update (increment the counter; on reaching 8 reset it and advance the frame
   * modulo 4) takes the counters after `ticks` updates to those after `ticks + 1`.
   */
  lemma {:induction false} TickAdvances(ticks: nat)
    ensures var counter := CounterAt(ticks) + 1;
      if counter >= AnimationSpeed then
        0 == CounterAt(ticks + 1) && (PhaseAt(ticks) + 1) % AnimationPhases == PhaseAt(ticks + 1)
      else
        counter == CounterAt(ticks + 1) && PhaseAt(ticks) == PhaseAt(ticks + 1)
  {
    var q, r := ticks / 8, ticks % 8;
    assert ticks == 8 * q + r;
    if r == 7 {
      assert ticks + 1 == 8 * (q + 1);
      assert (ticks + 1) / 8 == q + 1;
      var q4 := q % 4;
      assert q == 4 * (q / 4) + q4;
      if q4 == 3 {
        assert q + 1 == 4 * (q / 4 + 1);
      } else {
        assert q + 1 == 4 * (q / 4) + (q4 + 1);
      }
    } else {
      assert ticks + 1 == 8 * q + (r + 1);
    }
  }

  /** The spikes are armed (frame 2 or 3) exactly in the second half of each 32-update cycle. */
  lemma {:induction false} SpikesArmedHalfTheTime(ticks: nat)
    ensures (PhaseAt(ticks) == 2 || PhaseAt(ticks) == 3) <==> ticks % 32 >= 16
  {
    var c, r := ticks / 32, ticks % 32;
    assert ticks == 32 * c + r;
    assert ticks / 8 == 4 * c + r / 8;
    assert (ticks / 8) % 4 == r / 8;
  }

  /** The counters repeat with period 32. */
  lemma {:induction false} AnimationPeriodic(ticks: nat)
    ensures CounterAt(ticks + 32) == CounterAt(ticks) && PhaseAt(ticks + 32) == PhaseAt(ticks)
  {
    assert (ticks + 32) / 8 == ticks / 8 + 4;
  }
}
