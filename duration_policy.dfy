/**
  The voltage backoff applied to the sleep duration before each shutdown. The
  tiers are tried in order and the first that matches wins; they do not add up.
*/
module DurationPolicy {

  /** The sleep duration after the tier for `voltage` against the two thresholds. */
  function Backoff(off: int, voltage: real, half: real, quart: real): (r: int)
    ensures voltage <= half ==> r == 2 * off
    ensures half < voltage <= quart ==> r == 4 * off
    ensures half < voltage && quart < voltage ==> r == off
  {
    if !(voltage > half) then off * 2
    else if !(voltage > quart) then off * 4
    else off
  }

  /** The result is one of the three tiers: unchanged, doubled or quadrupled, never a product of two. */
  lemma BackoffIsOneTier(off: int, voltage: real, half: real, quart: real)
    ensures var r := Backoff(off, voltage, half, quart);
            r == off || r == 2 * off || r == 4 * off
  {
  }

  /**
    Quadrupling happens only when the quarter threshold lies above the half
    threshold; with `quart <= half` a low voltage only ever doubles.
  */
  lemma QuadruplingNeedsInvertedThresholds(off: int, voltage: real, half: real, quart: real)
    requires off != 0
    requires Backoff(off, voltage, half, quart) == 4 * off
    ensures half < voltage <= quart
    ensures half < quart
  {
  }

  /** A non-negative sleep never gets shorter, and whole minutes stay whole minutes. */
  lemma BackoffLengthens(off: int, voltage: real, half: real, quart: real)
    ensures off >= 0 ==> Backoff(off, voltage, half, quart) >= off
    ensures off % 60 == 0 ==> Backoff(off, voltage, half, quart) % 60 == 0
  {
    if off % 60 == 0 {
      var k := off / 60;
      assert off == 60 * k;
      assert 2 * off == 60 * (2 * k) && 4 * off == 60 * (4 * k);
    }
  }

  /** Worked examples: 35 minutes at 2.0 V doubles; at 0.5 V the half tier matches first. */
  lemma BackoffExamples()
    ensures Backoff(35 * 60, 2.0, 5.0, 1.0) == 70 * 60
    ensures Backoff(35 * 60, 0.5, 1.0, 5.0) == 70 * 60
    ensures Backoff(35 * 60, 3.0, 1.0, 5.0) == 140 * 60
    ensures Backoff(35 * 60, 6.0, 1.0, 5.0) == 35 * 60
  {
  }
}
