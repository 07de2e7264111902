/** Collapse detection (`Solar::hasCollapsed`, lib/MPPTLib/solar.cpp:310-323): has the
    solar input sagged under the load the converter draws? */
module Collapse {
  import opened Opt
  import opened PowerSupply

  /** "Simple voltage match": the input is below 1.11 times the output. */
  predicate SimpleMatch(inVolt: real, outVolt: real)
  {
    inVolt < outVolt * 1.11
  }

  /** "Secondary method": `(inVolt - outVolt) / outVolt < 0.05`, with the quotient cleared
      of its denominator (see `PercentCloseIsQuotient`). With `float` operands a zero output
      voltage makes the quotient infinite or NaN, which is never below 0.05 unless
      `inVolt < 0`, and then `SimpleMatch` holds already; so reading it as false at zero
      gives `HasCollapsed` the same value as the firmware. */
  predicate PercentClose(inVolt: real, outVolt: real)
  {
    if outVolt > 0.0 then inVolt - outVolt < 0.05 * outVolt
    else if outVolt < 0.0 then inVolt - outVolt > 0.05 * outVolt
    else false
  }

  /** The cleared form is the firmware's quotient test wherever the quotient is defined. */
  lemma PercentCloseIsQuotient(inVolt: real, outVolt: real)
    requires outVolt != 0.0
    ensures PercentClose(inVolt, outVolt) <==> (inVolt - outVolt) / outVolt < 0.05
  {
    var q := (inVolt - outVolt) / outVolt;
    assert inVolt - outVolt == q * outVolt;
    if outVolt > 0.0 {
      assert q < 0.05 <==> q * outVolt < 0.05 * outVolt;
    } else {
      assert q < 0.05 <==> q * outVolt > 0.05 * outVolt;
    }
  }

  function HasCollapsed(psu: Option<Psu>, inVolt: real): (r: bool)
    ensures psu.None? || !psu.value.outEn ==> !r
    ensures r ==> psu.value.collapsed
    ensures psu.Some? && !psu.value.drok ==> (r <==> psu.value.outEn && psu.value.collapsed)
  {
    if psu.None? || !psu.value.outEn then false
    else if !psu.value.drok && psu.value.collapsed then true
    else if SimpleMatch(inVolt, psu.value.outVolt) && psu.value.collapsed then true
    else if PercentClose(inVolt, psu.value.outVolt) && psu.value.collapsed then true
    else false
  }

  /** For a non-negative output voltage the secondary method is subsumed by the simple match:
      a Drok-family collapse is exactly "enabled, device flag set, input below 1.11 x output". */
  lemma DrokCollapseIsSimpleMatch(p: Psu, inVolt: real)
    requires p.drok && p.outVolt >= 0.0
    ensures HasCollapsed(Some(p), inVolt) <==> p.outEn && p.collapsed && SimpleMatch(inVolt, p.outVolt)
  {
  }

  /** The secondary method decides a collapse only when the output voltage is negative. */
  lemma SecondaryMethodNeedsNegativeOutput(p: Psu, inVolt: real)
    requires HasCollapsed(Some(p), inVolt) && p.drok
    requires !SimpleMatch(inVolt, p.outVolt)
    ensures p.outVolt < 0.0
  {
    if p.outVolt >= 0.0 {
      DrokCollapseIsSimpleMatch(p, inVolt);
    }
  }
}
