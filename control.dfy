/** The operating-state decision (`Solar::doUpdateState`, lib/MPPTLib/solar.cpp:387-403) and
    the proportional current correction of `Solar::doMeasure` (lines 373-384). */
module Control {
  import opened Opt
  import opened Time
  import opened PowerSupply

  /** The operating states; the firmware keeps them as strings. */
  datatype State = Off | Mppt | Sweeping | CollapseMode | Capped | FullCv | Error

  /** Whole seconds since the PSU last answered: `(millis() - lastSuccess_) / 1000`. */
  function SilentSecs(now: Millis, p: Psu): nat
  {
    Elapsed(now, p.lastSuccess) / 1000
  }

  /** The state `doUpdateState` leaves behind. */
  function NextState(state: State, psu: Option<Psu>, inVolt: real, currentCap: real, now: Millis): State
  {
    if psu.None? then Error
    else if state == Sweeping || state == CollapseMode then state
    else
      var p := psu.value;
      var secs := SilentSecs(now, p);
      if p.outEn then
        if secs > 11 then Error
        else if p.outCurr > currentCap * 0.95 then Capped
        else if p.cv then FullCv
        else Mppt
      else if inVolt > 1.0 && secs > 120 then Error
      else Off
  }

  /** The transition table, row by row: each combination of PSU presence, mode, output flag,
      silence, current against the cap and the CV flag selects exactly one state. */
  lemma TransitionTable(state: State, psu: Option<Psu>, inVolt: real, cap: real, now: Millis)
    ensures var r := NextState(state, psu, inVolt, cap, now);
      && (psu.None? ==> r == Error)
      && (psu.Some? && (state == Sweeping || state == CollapseMode) ==> r == state)
      && (psu.Some? && state != Sweeping && state != CollapseMode ==>
            var p := psu.value;
            var secs := SilentSecs(now, p);
            if p.outEn then
              && (r == Error <==> secs > 11)
              && (r == Capped <==> secs <= 11 && p.outCurr > cap * 0.95)
              && (r == FullCv <==> secs <= 11 && p.outCurr <= cap * 0.95 && p.cv)
              && (r == Mppt <==> secs <= 11 && p.outCurr <= cap * 0.95 && !p.cv)
            else
              && (r == Error <==> inVolt > 1.0 && secs > 120)
              && (r == Off <==> !(inVolt > 1.0 && secs > 120)))
  {
  }

  /** With a PSU present, the state machine never enters sweeping or collapse mode by itself,
      an enabled output never lands in `off`, and a disabled one lands in `off` or `error`. */
  lemma NextStateRange(state: State, p: Psu, inVolt: real, cap: real, now: Millis)
    ensures var r := NextState(state, Some(p), inVolt, cap, now);
      && (r == Sweeping ==> state == Sweeping)
      && (r == CollapseMode ==> state == CollapseMode)
      && (state != Sweeping && state != CollapseMode && p.outEn ==> r in {Error, Capped, FullCv, Mppt})
      && (state != Sweeping && state != CollapseMode && !p.outEn ==> r in {Error, Off})
  {
  }

  /** Leaving `error`: once the PSU has answered within the last 11 s (output enabled) or is
      not silent beyond 120 s with input present (output disabled), one evaluation moves the
      state out of `error`. */
  lemma RecoversFromError(p: Psu, inVolt: real, cap: real, now: Millis)
    requires p.outEn ==> SilentSecs(now, p) <= 11
    requires !p.outEn ==> !(inVolt > 1.0 && SilentSecs(now, p) > 120)
    ensures NextState(Error, Some(p), inVolt, cap, now) != Error
  {
  }

  /** The `capped` test is a strict `>`: exactly 95 % of the cap is not capped. */
  lemma CappedIsStrict(p: Psu, cap: real, now: Millis)
    requires p.outEn && SilentSecs(now, p) <= 11 && p.outCurr == cap * 0.95
    ensures NextState(Mppt, Some(p), 0.0, cap, now) != Capped
  {
  }

  /** Arduino's `constrain(x, lo, hi)` macro: `x < lo ? lo : (x > hi ? hi : x)`. */
  function Constrain(x: real, lo: real, hi: real): real
  {
    if x < lo then lo else if x > hi then hi else x
  }

  /** The asymmetric deadband: corrections happen above +0.3 V or below -0.2 V of error. */
  predicate OutsideDeadband(error: real)
  {
    error > 0.3 || -error > 0.2
  }

  /** The quick re-adjust condition of line 377: error below 0.6 V while tracking. */
  predicate Quick(error: real, state: State)
  {
    error < 0.6 && state == Mppt
  }

  /** The current `doMeasure` asks for when corrections are enabled and not sweeping:
      `error = inVolt - setpoint`, a step `error * pgain` limited to
      [-2 * ramplimit, ramplimit], applied outside the deadband and capped at `currentCap`. */
  function Desired(limitCurr: real, error: real, pgain: real, ramplimit: real, currentCap: real): real
  {
    if OutsideDeadband(error) then
      var dcurr := Constrain(error * pgain, -ramplimit * 2.0, ramplimit);
      if limitCurr + dcurr < currentCap then limitCurr + dcurr else currentCap
    else limitCurr
  }

  /** Inside the deadband nothing changes. */
  lemma DeadbandHolds(limitCurr: real, error: real, pgain: real, ramplimit: real, cap: real)
    requires -0.2 <= error <= 0.3
    ensures Desired(limitCurr, error, pgain, ramplimit, cap) == limitCurr
  {
  }

  /** Outside the deadband the request never exceeds the cap, rises by at most `ramplimit`,
      falls by at most `2 * ramplimit` unless the cap cuts deeper, and is the proportional
      step itself when neither limit binds. */
  lemma CorrectionBounds(limitCurr: real, error: real, pgain: real, ramplimit: real, cap: real)
    requires OutsideDeadband(error) && ramplimit >= 0.0
    ensures var r := Desired(limitCurr, error, pgain, ramplimit, cap);
      && r <= cap
      && r <= limitCurr + ramplimit
      && (r >= limitCurr - 2.0 * ramplimit || r == cap)
      && (-2.0 * ramplimit <= error * pgain <= ramplimit && limitCurr + error * pgain <= cap ==>
            r == limitCurr + error * pgain)
  {
  }

  /** With a non-negative gain, a positive error (input above the set-point) never lowers the
      current below the smaller of the old limit and the cap, and a negative error never
      raises it; below 0 error the step is toward less current. */
  lemma CorrectionDirection(limitCurr: real, error: real, pgain: real, ramplimit: real, cap: real)
    requires OutsideDeadband(error) && ramplimit >= 0.0 && pgain >= 0.0
    ensures var r := Desired(limitCurr, error, pgain, ramplimit, cap);
      && (error > 0.0 ==> r >= (if limitCurr < cap then limitCurr else cap))
      && (error < 0.0 ==> r <= limitCurr)
  {
    assert error > 0.0 ==> error * pgain >= 0.0;
    assert error < 0.0 ==> error * pgain <= 0.0;
  }
}
