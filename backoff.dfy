/** The adaptive retry back-off of the control loop: a failure counter in [0, 8] that
    stretches the adjustment period superlinearly (lib/MPPTLib/solar.cpp:436-438, 579-582). */
module Backoff {
  const MaxLevel: int := 8

  /** `Solar::getBackoff`: the base period when the level is not positive, otherwise
      `((level*level + 2) / 2) * period`, dividing before multiplying. */
  function GetBackoff(level: int, period: int): int
  {
    if level <= 0 then period else ((level * level + 2) / 2) * period
  }

  /** The multiplier `GetBackoff` applies to the period. */
  function Multiplier(level: int): (m: int)
    ensures m >= 1
    ensures forall period :: GetBackoff(level, period) == m * period
  {
    if level <= 0 then 1 else (level * level + 2) / 2
  }

  /** The counter update at the end of `doAdjust`: one step down (floor 0) after a success,
      one step up (ceiling 8) after a back-off signal. */
  function NextLevel(level: int, backoff: bool): int
  {
    if backoff then (if level + 1 < MaxLevel then level + 1 else MaxLevel)
    else (if level - 1 > 0 then level - 1 else 0)
  }

  /** The counter never leaves [0, 8] and moves by at most one per adjustment. */
  lemma NextLevelInRange(level: int, backoff: bool)
    requires 0 <= level <= MaxLevel
    ensures 0 <= NextLevel(level, backoff) <= MaxLevel
    ensures backoff ==> NextLevel(level, backoff) == (if level == MaxLevel then MaxLevel else level + 1)
    ensures !backoff ==> NextLevel(level, backoff) == (if level == 0 then 0 else level - 1)
  {
  }

  /** Level 0 and level 1 both leave the period as it is (the division truncates 3/2 to 1),
      level 2 triples it and level 8 multiplies it by 33. */
  lemma Multipliers(period: int)
    ensures GetBackoff(0, period) == period
    ensures GetBackoff(1, period) == period
    ensures GetBackoff(2, period) == 3 * period
    ensures GetBackoff(MaxLevel, period) == 33 * period
  {
  }

  /** The multiplier is non-decreasing in the level. */
  lemma {:induction false} MultiplierMonotone(l1: int, l2: int)
    requires l1 <= l2
    ensures Multiplier(l1) <= Multiplier(l2)
  {
    if l1 > 0 {
      assert l1 * l1 <= l2 * l2 by {
        assert l1 * l1 <= l1 * l2 <= l2 * l2;
      }
    }
  }

  /** For a non-negative period the back-off interval is non-decreasing in the level. */
  lemma BackoffMonotone(l1: int, l2: int, period: int)
    requires l1 <= l2 && period >= 0
    ensures GetBackoff(l1, period) <= GetBackoff(l2, period)
  {
    MultiplierMonotone(l1, l2);
    assert Multiplier(l1) * period <= Multiplier(l2) * period;
  }

  /** Over the counter's range the interval never exceeds 33 periods. */
  lemma BackoffBounded(level: int, period: int)
    requires level <= MaxLevel && period >= 0
    ensures period <= GetBackoff(level, period) <= 33 * period
  {
    BackoffMonotone(level, MaxLevel, period);
    if level > 0 { MultiplierMonotone(0, level); }
    assert Multiplier(level) * period >= period;
  }
}
