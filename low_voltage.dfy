/** The low-voltage protection interlock: a relay latched open when the output (battery)
    voltage falls below a threshold and released only above a higher recovery threshold
    (lib/MPPTLib/solar.cpp:483-495, 619-646). */
module LowVoltage {
  import opened Opt
  import opened Time

  /** What one due check does. */
  datatype LvAction = Stay | Trip | Release

  /** Lines 484-494: an untriggered protector trips below `threshold`, a triggered one releases
      above `recovery`; without a PSU reading nothing happens. */
  function Decide(triggered: bool, outVolt: Option<real>, threshold: real, recovery: real): LvAction
  {
    if !triggered && outVolt.Some? && outVolt.value < threshold then Trip
    else if triggered && outVolt.Some? && outVolt.value > recovery then Release
    else Stay
  }

  /** The latched state after an action. */
  function Latched(triggered: bool, a: LvAction): bool
  {
    match a
    case Trip => true
    case Release => false
    case Stay => triggered
  }

  /** Hysteresis: the latch changes only by tripping below the threshold or releasing above the
      recovery threshold; with `threshold <= recovery`, a voltage inside the band leaves it. */
  lemma Hysteresis(triggered: bool, v: real, threshold: real, recovery: real)
    ensures var a := Decide(triggered, Some(v), threshold, recovery);
      && (a == Trip <==> !triggered && v < threshold)
      && (a == Release <==> triggered && v > recovery)
      && (threshold <= v <= recovery ==> Latched(triggered, a) == triggered)
      && (Latched(triggered, a) != triggered <==> a != Stay)
  {
  }

  /** 13.0 V, then 11.9 V trips a 12.0 V / 12.96 V protector; 12.5 V keeps it tripped; 13.0 V
      releases it. */
  lemma Scenario()
    ensures var t0 := Latched(false, Decide(false, Some(13.0), 12.0, 12.96));
            var t1 := Latched(t0, Decide(t0, Some(11.9), 12.0, 12.96));
            var t2 := Latched(t1, Decide(t1, Some(12.5), 12.0, 12.96));
            var t3 := Latched(t2, Decide(t2, Some(13.0), 12.0, 12.96));
      !t0 && t1 && t2 && !t3
  {
  }

  /** The recovery threshold when the configuration names none (line 634). */
  function DefaultRecovery(threshold: real): (r: real)
    ensures threshold > 0.0 ==> r > threshold
  {
    threshold * 1.08
  }

  /** `LowVoltageProtect`: the thresholds, the relay (modelled as the latched flag that
      `isTriggered()` reads back from the pin) and the time of the next due check. */
  class LowVoltageProtect {
    var threshold: real
    var threshRecovery: real
    var relay: bool
    var nextCheck: Millis

    /** The thresholds of a configuration; the recovery threshold defaults to 1.08 times the
        trigger threshold. Parsing the configuration string is not modelled. */
    constructor (threshold: real, recovery: Option<real>)
      ensures this.threshold == threshold
      ensures threshRecovery == (if recovery.Some? then recovery.value else DefaultRecovery(threshold))
      ensures !relay && nextCheck == 0
    {
      this.threshold := threshold;
      threshRecovery := if recovery.Some? then recovery.value else DefaultRecovery(threshold);
      relay := false;
      nextCheck := 0;
    }

    /** `trigger(on)`: drive the relay. */
    method Trigger(on: bool)
      modifies this`relay
      ensures relay == on
    {
      relay := on;
    }
  }
}
