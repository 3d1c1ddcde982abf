/**
 * The game's random draws. Each takes the `Math.random()` value it uses as
 * a parameter `r` with `0 <= r < 1`.
 */
module Chance {

  /** `getRandomMysteryFrames`: a countdown of 20 to 40 seconds at 60 ticks per second. */
  function MysteryFrames(r: real): (f: int)
    requires 0.0 <= r < 1.0
    ensures 1200 <= f <= 2399
  {
    ((20.0 + r * 20.0) * 60.0).Floor
  }

  /** The mystery-ship bonus `(1 + floor(r * 5)) * 50`. */
  function Bonus(r: real): (b: int)
    requires 0.0 <= r < 1.0
    ensures b in {50, 100, 150, 200, 250}
  {
    (1 + (r * 5.0).Floor) * 50
  }

  /** Each of the five bonuses is drawn by a fifth of the unit interval. */
  lemma BonusBand(r: real, k: int)
    requires 0 <= k < 5
    requires k as real / 5.0 <= r < (k + 1) as real / 5.0
    ensures Bonus(r) == 50 * (k + 1)
  {
    assert k as real <= r * 5.0 < (k + 1) as real;
  }

  /** A uniformly drawn index into a non-empty list: `Math.floor(r * n)`. */
  function PickIndex(r: real, n: nat): (k: nat)
    requires 0.0 <= r < 1.0 && n > 0
    ensures k < n
  {
    assert r * n as real < n as real;
    (r * n as real).Floor
  }
}
