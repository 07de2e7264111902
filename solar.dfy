/** The `Solar` controller object: its fields are updated in place by the operations of
    lib/MPPTLib/solar.cpp, each proved to agree with the transition of the same name in
    `Engine`, so every property proved there holds of the object. */
module Solar {
  import opened Opt
  import opened Time
  import opened Backoff
  import opened PowerSupply
  import opened Collapse
  import opened Sweep
  import opened Control
  import opened LowVoltage
  import CollapseLog
  import Engine

  class Solar {
    // settings
    var cfg: Engine.Config
    // controller state
    var state: State
    var psu: Option<Psu>
    var inVolt: real
    var setpoint: real
    var offThreshold: real
    var backoffLevel: int
    var collapses: seq<Millis>
    var sweepPoints: seq<SPoint>
    var dirty: set<string>
    var lvProtect: LowVoltageProtect?
    // the model of millis() and the next-due timestamps
    var clock: Millis
    var nextVmeas: Millis
    var nextSolarAdjust: Millis
    var nextPrint: Millis
    var nextPSUpdate: Millis
    var nextAutoSweep: Millis
    var lastAutoSweep: Millis

    /** The object's state as an `Engine.Core` value. */
    ghost function Model(): Engine.Core
      reads this
    {
      Engine.Core(
        cfg,
        state, psu, inVolt, setpoint, offThreshold, backoffLevel, collapses, sweepPoints, dirty,
        clock, nextVmeas, nextSolarAdjust, nextPrint, nextPSUpdate, nextAutoSweep, lastAutoSweep)
    }

    /** The low-voltage protector's state, when one is installed. */
    ghost function Protector(): Option<Engine.Lv>
      reads this`lvProtect, lvProtect
    {
      if lvProtect == null then None
      else Some(Engine.Lv(lvProtect.threshold, lvProtect.threshRecovery, lvProtect.relay, lvProtect.nextCheck))
    }

    ghost predicate Valid()
      reads this
    {
      Engine.Inv(Model())
    }

    constructor (cfg: Engine.Config, setpoint: real, offThreshold: real)
      ensures Valid() && Model() == Engine.Initial(cfg, setpoint, offThreshold) && Protector() == None
    {
      this.cfg := cfg;
      state, psu, inVolt := Off, None, 0.0;
      this.setpoint, this.offThreshold := setpoint, offThreshold;
      backoffLevel, collapses, sweepPoints, dirty, lvProtect := 0, [], [], {}, null;
      clock, nextVmeas, nextSolarAdjust, nextPrint := 0, 0, 1000, 0;
      nextPSUpdate, nextAutoSweep, lastAutoSweep := 0, 0, 0;
    }

    /** `setPSU` with a device the factory accepted. */
    method InstallPsu(p: Psu)
      requires Valid()
      modifies this
      ensures Valid() && Model() == Engine.InstallPsu(old(Model()), p)
    {
      psu := Some(p);
      if !p.drok && cfg.measperiod == 200 {
        cfg := cfg.(measperiod := 500);
      }
    }

    /** `setLVProtect` with a protector. */
    method SetLvProtect(p: LowVoltageProtect)
      modifies this`lvProtect, p
      ensures lvProtect == p && Model() == old(Model())
      ensures Protector() == Some(Engine.InstallLv(Model(), Engine.Lv(p.threshold, p.threshRecovery, p.relay, old(p.nextCheck))))
    {
      lvProtect := p;
      p.nextCheck := Add(clock, 5000);
    }

    /** `setState`. */
    method SetState(s: State)
      modifies this`state, this`dirty
      ensures Model() == Engine.SetState(old(Model()), s)
    {
      if state != s {
        dirty := dirty + {Engine.StateKey};
      }
      state := s;
    }

    /** `delay(ms)`. */
    method Delay(ms: int)
      modifies this`clock
      ensures Model() == Engine.Delay(old(Model()), ms)
    {
      clock := Add(clock, ms);
    }

    /** `measureInvolt()`, with the ADC reading `v`. */
    method MeasureInvolt(v: real) returns (r: real)
      modifies this`inVolt, this`dirty
      ensures r == v && Model() == Engine.MeasureInvolt(old(Model()), v)
    {
      inVolt := v;
      dirty := dirty + {Engine.InVoltKey};
      r := inVolt;
    }

    /** `updatePSU()`, with the telemetry `doUpdate()` returns. */
    method UpdatePsu(telemetry: Option<Psu>) returns (ok: bool)
      modifies this`psu, this`dirty
      ensures ok == Engine.PsuUpdated(old(Model()), telemetry)
      ensures Model() == Engine.UpdatePsu(old(Model()), telemetry)
    {
      ok := psu.Some? && telemetry.Some?;
      if ok {
        psu := Some(Refresh(psu.value, telemetry));
        dirty := dirty + Engine.TelemetryKeys;
      }
    }

    /** `pub_.setDirty(keys)`. */
    method MarkDirty(keys: set<string>)
      modifies this`dirty
      ensures Model() == Engine.MarkDirty(old(Model()), keys)
    {
      dirty := dirty + keys;
    }

    /** The PSU object's fields once it has handled a command or a read. */
    method SetPsuState(p: Psu)
      modifies this`psu
      ensures Model() == old(Model()).(psu := Some(p))
    {
      psu := Some(p);
    }

    /** `applyAdjustment(current)`. */
    method ApplyAdjustment(current: real, io: Engine.Io)
      modifies this`psu, this`clock, this`dirty
      ensures Model() == Engine.ApplyAdjustment(old(Model()), current, io)
    {
      if psu.Some? && current != psu.value.limitCurr {
        SetPsuState(SetCurrent(psu.value, current, io.link));
        Delay(50);
        SetPsuState(ReadCurrent(psu.value, io.current));
        MarkDirty(Engine.AdjustKeys);
      }
    }

    /** The poll loop of `restoreFromCollapse`: read the input every 25 ms until a reading
        reaches `offThreshold` or 8 s have passed; returns the number of waits. */
    method PollInput(polls: nat -> real) returns (waits: nat)
      modifies this`clock, this`inVolt, this`dirty
      ensures waits == Engine.PollStop(polls, offThreshold, 0)
      ensures Model() == Engine.Poll(old(Model()), polls)
    {
      var start := clock;
      ghost var m0 := Model();
      waits := 0;
      while Elapsed(clock, start) < Engine.PollWindow
        invariant 0 <= waits <= Engine.MaxPolls
        invariant clock == Add(start, Engine.PollPeriod * waits)
        invariant forall j :: 0 <= j < waits ==> polls(j) < offThreshold
        invariant Model() == Engine.Polled(m0, polls, waits)
        decreases Engine.MaxPolls - waits
      {
        ElapsedAfterAdd(start, Engine.PollPeriod * waits);
        var below := PollOnce(polls(waits));
        if !below {
          Engine.PollEnds(m0, polls, waits, true);
          return;
        }
        Engine.PolledStep(m0, polls, waits);
        waits := waits + 1;
      }
      ElapsedAfterAdd(start, Engine.PollPeriod * waits);
      Engine.PollEnds(m0, polls, waits, false);
    }

    /** One pass of the poll loop: read the input and wait 25 ms while it is below
        `offThreshold`; returns whether it was. */
    method PollOnce(v: real) returns (below: bool)
      modifies this`clock, this`inVolt, this`dirty
      ensures below == (v < offThreshold)
      ensures Model() == Engine.PollOnce(old(Model()), v)
    {
      var r := MeasureInvolt(v);
      below := r < offThreshold;
      if below {
        Delay(Engine.PollPeriod);
      }
    }

    /** `restoreFromCollapse(restoreCurrent)`: the poll reads `io.polls` in order. */
    method RestoreFromCollapse(restoreCurrent: real, io: Engine.Io)
      requires psu.Some?
      modifies this`psu, this`clock, this`inVolt, this`offThreshold, this`dirty
      ensures Model() == Engine.Restore(old(Model()), restoreCurrent, io)
    {
      SetPsuState(SetCurrent(psu.value, 0.01, io.link));
      var waits := PollInput(io.polls);
      var _ := MeasureInvolt(io.polls(Engine.FinalReading(waits)));
      Calibrate();
      SetPsuState(SetCurrent(psu.value, restoreCurrent, io.link));
    }

    /** Lines 360-364, with the voltage just read in `inVolt`. */
    method Calibrate()
      modifies this`offThreshold, this`dirty
      ensures Model() == Engine.Calibrate(old(Model()))
    {
      if offThreshold >= Engine.Uncalibrated {
        offThreshold := 0.992 * inVolt;
        dirty := dirty + {Engine.OffThresholdKey};
      }
    }

    /** `startSweep()`. */
    method StartSweep(io: Engine.Io)
      requires Valid() && (state == Error || psu.Some?)
      modifies this`psu, this`clock, this`inVolt, this`offThreshold, this`dirty, this`state, this`lastAutoSweep
      ensures Valid() && Model() == Engine.StartSweep(old(Model()), io)
    {
      if state == Error {
        return;
      }
      EaseOff(io);
      EnterSweep(io);
    }

    /** Lines 234-239. */
    method EaseOff(io: Engine.Io)
      requires psu.Some?
      modifies this`psu, this`clock, this`inVolt, this`offThreshold, this`dirty
      ensures psu.Some? && Model() == Engine.EaseOff(old(Model()), io)
    {
      SetPsuState(SetCurrent(psu.value, psu.value.currFilt * 0.90, io.link));
      if state == CollapseMode || HasCollapsed(psu, inVolt) {
        RestoreFromCollapse(psu.value.currFilt * 0.75, io);
      }
    }

    /** Lines 240-243. */
    method EnterSweep(io: Engine.Io)
      requires psu.Some?
      modifies this`psu, this`dirty, this`state, this`lastAutoSweep
      ensures Model() == Engine.EnterSweep(old(Model()), io)
    {
      SetState(Sweeping);
      if !psu.value.outEn {
        SetPsuState(EnableOutput(psu.value, true, io.link));
      }
      lastAutoSweep := clock;
    }

    /** Lines 277-292: run collapsed at the collapse point, or restore and track the backed-off
        peak; then publish the set-point, hold off the next adjustment and empty the buffer. */
    method ApplyConclusion(k: Conclusion, io: Engine.Io)
      requires psu.Some? && (k.RunCollapsed? || k.Track?)
      modifies this`psu, this`clock, this`inVolt, this`offThreshold, this`dirty, this`state, this`sweepPoints,
              this`setpoint, this`nextAutoSweep, this`nextSolarAdjust
      ensures Model() == Engine.Settle(old(Model()), k, io)
    {
      Steer(k, io);
      Publish(k.setpoint);
    }

    /** Lines 277-288. */
    method Steer(k: Conclusion, io: Engine.Io)
      requires psu.Some? && (k.RunCollapsed? || k.Track?)
      modifies this`psu, this`clock, this`inVolt, this`offThreshold, this`dirty, this`state, this`nextAutoSweep
      ensures Model() == Engine.Steer(old(Model()), k, io)
    {
      if k.RunCollapsed? {
        SetState(CollapseMode);
        RunAtCap(io);
      } else {
        SetState(Mppt);
        RestoreFromCollapse(k.restoreCurrent, io);
      }
    }

    /** Lines 280-281. */
    method RunAtCap(io: Engine.Io)
      requires psu.Some?
      modifies this`psu, this`nextAutoSweep
      ensures Model() == Engine.RunAtCap(old(Model()), io)
    {
      psu := Some(SetCurrent(psu.value, if cfg.currentCap > 0.0 then cfg.currentCap else 10.0, io.link));
      nextAutoSweep := Add(clock, CDiv(cfg.autoSweep * 1000, 3));
    }

    /** Lines 282, 288 and 290-292. */
    method Publish(setpoint: real)
      modifies this`setpoint, this`dirty, this`nextSolarAdjust, this`sweepPoints
      ensures Model() == Engine.Publish(old(Model()), setpoint)
    {
      this.setpoint := setpoint;
      dirty := dirty + {Engine.SetpointKey};
      nextSolarAdjust := Add(clock, 1000);
      sweepPoints := [];
    }

    /** `setState(s)` on leaving `sweeping`, with the buffer emptied. */
    method ExitSweep(s: State)
      modifies this`state, this`dirty, this`sweepPoints
      ensures Model() == Engine.ExitSweep(old(Model()), s)
    {
      SetState(s);
      sweepPoints := [];
    }

    /** Lines 296-307: the cap and constant-voltage exits, or the ramp. */
    method FinishSweep(newest: SPoint, io: Engine.Io)
      requires psu.Some?
      modifies this`psu, this`clock, this`dirty, this`state, this`sweepPoints, this`setpoint
      ensures Model() == Engine.Finish(old(Model()), newest, io)
    {
      if psu.value.limitCurr >= cfg.currentCap {
        setpoint := newest.input;
        ExitSweep(Mppt);
        ApplyAdjustment(cfg.currentCap, io);
      } else if psu.value.cv {
        ExitSweep(FullCv);
      } else {
        var up := psu.value.limitCurr + inVolt * 0.001;
        ApplyAdjustment(if up < cfg.currentCap + 0.001 then up else cfg.currentCap + 0.001, io);
      }
    }

    /** Lines 255-307 once the newest sample is at the back of the buffer. */
    method SweepDecision(newest: SPoint, io: Engine.Io)
      requires psu.Some? && |sweepPoints| > 0 && state == Sweeping && 0 <= backoffLevel <= MaxLevel
      modifies this`psu, this`clock, this`inVolt, this`offThreshold, this`dirty, this`state, this`sweepPoints,
              this`setpoint, this`nextAutoSweep, this`nextSolarAdjust
      ensures Model() == Engine.SweepDecision(old(Model()), newest, io)
    {
      var k := DecideSweep(sweepPoints, |collapses|);
      if k.NoHeadroom? {
        RestoreFromCollapse(psu.value.currFilt * 0.5, io);
        ExitSweep(Mppt);
        return;
      }
      if !k.Pending? {
        ApplyConclusion(k, io);
      }
      FinishSweep(newest, io);
    }

    /** `doSweepStep()`, with the buffer emptied on every exit from sweeping and the cap exit
        reading the sample recorded on this step. */
    method DoSweepStep(io: Engine.Io)
      requires Valid() && state == Sweeping
      modifies this`psu, this`clock, this`inVolt, this`offThreshold, this`dirty, this`state, this`sweepPoints,
              this`setpoint, this`nextAutoSweep, this`nextSolarAdjust
      ensures Valid() && Model() == Engine.SweepStep(old(Model()), io)
    {
      if psu.None? {
        return;
      }
      if !psu.value.outEn {
        ExitSweep(Mppt);
        return;
      }
      var _ := UpdatePsu(io.telemetry);
      var isCollapsed := HasCollapsed(psu, inVolt);
      var newest := SPoint(psu.value.outVolt, psu.value.outCurr, inVolt, isCollapsed);
      sweepPoints := sweepPoints + [newest];
      SweepDecision(newest, io);
    }

    /** `doMeasure()`: returns the desired current. */
    method DoMeasure(io: Engine.Io) returns (desired: real)
      requires Valid()
      modifies this`psu, this`clock, this`inVolt, this`offThreshold, this`dirty, this`state, this`sweepPoints,
              this`setpoint, this`nextAutoSweep, this`nextSolarAdjust
      ensures Valid()
      ensures (Model(), desired) == Engine.Measure(old(Model()), io)
    {
      var _ := MeasureInvolt(io.volt);
      if state == Sweeping {
        DoSweepStep(io);
        desired := if psu.Some? then psu.value.limitCurr else 0.0;
      } else {
        desired := Proportional();
      }
    }

    /** Lines 373-384: the proportional correction towards the set-point. */
    method Proportional() returns (desired: real)
      modifies this`nextSolarAdjust
      ensures (Model(), desired) == Engine.Proportional(old(Model()))
    {
      if setpoint > 0.0 && psu.Some? && psu.value.outEn {
        var error := inVolt - setpoint;
        var dcurr := Constrain(error * cfg.pgain, -cfg.ramplimit * 2.0, cfg.ramplimit);
        if error > 0.3 || -error > 0.2 {
          if error < 0.6 && state == Mppt {
            nextSolarAdjust := clock;
          }
          var up := psu.value.limitCurr + dcurr;
          return if up < cfg.currentCap then up else cfg.currentCap;
        }
      }
      desired := if psu.Some? then psu.value.limitCurr else 0.0;
    }

    /** `doUpdateState()`. */
    method DoUpdateState()
      requires Valid()
      modifies this`state, this`dirty
      ensures Valid() && Model() == Engine.UpdateState(old(Model()))
    {
      if psu.None? {
        SetState(Error);
      } else if state != Sweeping && state != CollapseMode {
        var lastPsuSecs := Elapsed(clock, psu.value.lastSuccess) / 1000;
        if psu.value.outEn {
          if lastPsuSecs > 11 {
            SetState(Error);
          } else if psu.value.outCurr > cfg.currentCap * 0.95 {
            SetState(Capped);
          } else if psu.value.cv {
            SetState(FullCv);
          } else {
            SetState(Mppt);
          }
        } else {
          if inVolt > 1.0 && lastPsuSecs > 120 {
            SetState(Error);
          } else {
            SetState(Off);
          }
        }
      }
    }

    /** The `try` block of `doAdjust(desired)`: a thrown `Backoff` is the returned outcome. */
    method TryAdjust(desired: real, io: Engine.Io) returns (outcome: Engine.Outcome)
      modifies this`psu, this`clock, this`inVolt, this`offThreshold, this`dirty, this`collapses
      ensures (Model(), outcome) == Engine.TryAdjust(old(Model()), desired, io)
    {
      outcome := Engine.Ok;
      if state == Error {
        if psu.Some? && Elapsed(clock, psu.value.lastSuccess) < Engine.ShutdownWindow {
          SetPsuState(EnableOutput(psu.value, false, io.link));
          SetPsuState(SetCurrent(psu.value, 0.0, io.link));
          outcome := Engine.NeedsBackoff(Engine.PsuFailure);
        }
      } else if setpoint > 0.0 && state != Sweeping {
        outcome := Correct(desired, io);
      }
    }

    /** Lines 415-431. */
    method Prepare(io: Engine.Io) returns (outcome: Engine.Outcome)
      modifies this`psu, this`clock, this`inVolt, this`offThreshold, this`dirty, this`collapses
      ensures (Model(), outcome) == Engine.Prepare(old(Model()), io)
    {
      outcome := Engine.Ok;
      if HasCollapsed(psu, inVolt) && state != CollapseMode {
        RecordCollapse();
        RestoreFromCollapse(psu.value.currFilt * 0.95, io);
      } else if psu.Some? && !psu.value.outEn {
        var p := psu.value;
        if inVolt < p.outVolt || p.outVolt < 0.1 {
          outcome := Engine.NeedsBackoff(Engine.TooDark);
        } else if p.outVolt > p.limitVolt || (p.outVolt < p.limitVolt * 0.60 && p.outVolt > 1.0) {
          outcome := Engine.NeedsBackoff(Engine.BatteryMismatch);
        } else {
          SetPsuState(EnableOutput(p, true, io.link));
        }
      }
    }

    /** Lines 416-417. */
    method RecordCollapse()
      modifies this`collapses, this`dirty
      ensures Model() == Engine.RecordCollapse(old(Model()))
    {
      collapses := collapses + [clock];
      dirty := dirty + {Engine.CollapsesKey};
    }

    /** Lines 432-434. */
    method ApplyIfEnabled(desired: real, io: Engine.Io)
      modifies this`psu, this`clock, this`dirty
      ensures Model() == Engine.ApplyIfEnabled(old(Model()), desired, io)
    {
      if psu.Some? && psu.value.outEn && state != CollapseMode {
        ApplyAdjustment(desired, io);
      }
    }

    /** Lines 414-434. */
    method Correct(desired: real, io: Engine.Io) returns (outcome: Engine.Outcome)
      modifies this`psu, this`clock, this`inVolt, this`offThreshold, this`dirty, this`collapses
      ensures (Model(), outcome) == Engine.Correct(old(Model()), desired, io)
    {
      outcome := Prepare(io);
      if outcome.Ok? {
        ApplyIfEnabled(desired, io);
      }
    }

    /** `doAdjust(desired)`. */
    method DoAdjust(desired: real, io: Engine.Io)
      requires Valid()
      modifies this`psu, this`clock, this`inVolt, this`offThreshold, this`dirty, this`collapses, this`backoffLevel
      ensures Valid() && Model() == Engine.Adjust(old(Model()), desired, io)
    {
      var outcome := TryAdjust(desired, io);
      StepBackoff(outcome.NeedsBackoff?);
      PruneOnce();
    }

    /** Lines 436-438. */
    method StepBackoff(backoff: bool)
      requires 0 <= backoffLevel <= MaxLevel
      modifies this`backoffLevel
      ensures Model() == Engine.StepBackoff(old(Model()), backoff)
    {
      if backoff {
        backoffLevel := if backoffLevel + 1 < MaxLevel then backoffLevel + 1 else MaxLevel;
      } else {
        backoffLevel := if backoffLevel - 1 > 0 then backoffLevel - 1 else 0;
      }
    }

    /** Lines 441-444. */
    method PruneOnce()
      modifies this`collapses, this`dirty
      ensures Model() == Engine.PruneOnce(old(Model()))
    {
      if |collapses| > 0 && Elapsed(clock, collapses[0]) > CollapseLog.MaxAge {
        collapses := collapses[1..];
        dirty := dirty + {Engine.CollapsesKey};
      }
    }

    /** The low-voltage check of `loop()`. */
    method CheckLowVoltage(now: Millis)
      requires Valid()
      modifies this`clock, lvProtect
      ensures Valid() && (Model(), Protector()) == Engine.LvBranch(old(Model()), old(Protector()), now)
    {
      if lvProtect != null && now > lvProtect.nextCheck {
        if !lvProtect.relay && psu.Some? && psu.value.outVolt < lvProtect.threshold {
          Delay(200);
          lvProtect.Trigger(true);
          lvProtect.nextCheck := Add(now, 5000);
        } else if lvProtect.relay && psu.Some? && psu.value.outVolt > lvProtect.threshRecovery {
          lvProtect.Trigger(false);
          lvProtect.nextCheck := Add(now, 10000);
        }
      }
    }

    /** Lines 452-456. */
    method MeasureBranch(now: Millis, io: Engine.Io)
      requires Valid()
      modifies this`psu, this`clock, this`inVolt, this`offThreshold, this`dirty, this`state, this`sweepPoints,
              this`setpoint, this`nextAutoSweep, this`nextSolarAdjust, this`nextVmeas
      ensures Valid() && Model() == Engine.MeasureBranch(old(Model()), now, io)
    {
      if now > nextVmeas {
        var _ := DoMeasure(io);
        DoUpdateState();
        nextVmeas := Add(now, if state == Sweeping then cfg.measperiod * 2 else cfg.measperiod);
      }
    }

    /** Lines 458-462. */
    method AdjustBranch(now: Millis, measure: Engine.Io, adjust: Engine.Io)
      requires Valid()
      modifies this`psu, this`clock, this`inVolt, this`offThreshold, this`dirty, this`state, this`sweepPoints,
              this`setpoint, this`nextAutoSweep, this`nextSolarAdjust, this`collapses, this`backoffLevel
      ensures Valid() && Model() == Engine.AdjustBranch(old(Model()), now, measure, adjust)
    {
      if now > nextSolarAdjust {
        var desired := DoMeasure(measure);
        DoAdjust(desired, adjust);
        nextSolarAdjust := Add(now, GetBackoff(backoffLevel, cfg.adjustPeriod));
      }
    }

    /** Lines 469-481. */
    method PsuBranch(now: Millis, telemetry: Option<Psu>)
      requires Valid()
      modifies this`psu, this`dirty, this`nextPSUpdate
      ensures Valid() && Model() == Engine.PsuBranch(old(Model()), now, telemetry)
    {
      if psu.Some? && now > nextPSUpdate {
        var _ := UpdatePsu(telemetry);
        var wait := GetBackoff(backoffLevel, 5000);
        nextPSUpdate := Add(now, if wait < 100000 then wait else 100000);
      }
    }

    /** Lines 497-511. */
    method AutoSweepBranch(now: Millis, io: Engine.Io)
      requires Valid()
      modifies this`psu, this`clock, this`inVolt, this`offThreshold, this`dirty, this`state,
               this`nextAutoSweep, this`lastAutoSweep
      ensures Valid() && Model() == Engine.AutoSweepBranch(old(Model()), now, io)
    {
      PullInAutoSweep();
      if cfg.autoSweep > 0 && now > nextAutoSweep {
        if state == Mppt || state == CollapseMode {
          StartSweep(io);
        }
        RescheduleAutoSweep(now);
      }
    }

    /** Lines 497-498. */
    method PullInAutoSweep()
      requires Valid()
      modifies this`nextAutoSweep
      ensures Valid() && Model() == Engine.PullInAutoSweep(old(Model()))
    {
      if |collapses| > 2 {
        nextAutoSweep := Add(lastAutoSweep, CDiv(cfg.autoSweep * 1000, 3));
      }
    }

    /** Lines 509-510. */
    method RescheduleAutoSweep(now: Millis)
      requires Valid()
      modifies this`nextAutoSweep, this`lastAutoSweep
      ensures Valid() && Model() == Engine.RescheduleAutoSweep(old(Model()), now)
    {
      nextAutoSweep := Add(now, cfg.autoSweep * 1000);
      lastAutoSweep := now;
    }

    /** One pass of `loop()` at time `now`. */
    method Loop(now: Millis, io: Engine.TickIo)
      requires Valid()
      modifies this, lvProtect
      ensures lvProtect == old(lvProtect)
      ensures Valid() && (Model(), Protector()) == Engine.LoopStep(old(Model()), old(Protector()), now, io)
    {
      Tick(now);
      if io.otaPending {
        Delay(100);
        return;
      }
      Regulate(now, io);
      Housekeeping(now, io);
    }

    /** Lines 452-462: the measurement and adjustment branches of `loop()`. */
    method Regulate(now: Millis, io: Engine.TickIo)
      requires Valid()
      modifies this`psu, this`clock, this`inVolt, this`offThreshold, this`dirty, this`state, this`sweepPoints,
              this`setpoint, this`nextAutoSweep, this`nextSolarAdjust, this`nextVmeas, this`collapses, this`backoffLevel
      ensures Valid() && Model() == Engine.Regulate(old(Model()), now, io)
    {
      MeasureBranch(now, io.measure);
      AdjustBranch(now, io.adjustMeasure, io.adjust);
    }

    /** `millis()` read at the top of `loop()`. */
    method Tick(now: Millis)
      modifies this`clock
      ensures Model() == Engine.Tick(old(Model()), now)
    {
      clock := now;
    }

    /** Lines 464-511. */
    method Housekeeping(now: Millis, io: Engine.TickIo)
      requires Valid()
      modifies this, lvProtect
      ensures lvProtect == old(lvProtect)
      ensures Valid() && (Model(), Protector()) == Engine.Housekeeping(old(Model()), old(Protector()), now, io)
    {
      if now > nextPrint {
        nextPrint := Add(now, cfg.printPeriod);
      }
      PsuBranch(now, io.psuUpdate);
      CheckLowVoltage(now);
      AutoSweepBranch(now, io.sweep);
    }
  }
}
