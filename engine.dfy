/** The control engine of `Solar` as pure state transitions: one function per firmware
    operation, from the state before the call to the state after it. The `Solar` class
    performs these operations step by step and is proved to agree with them; the lemmas
    here state what the operations promise. */
module Engine {
  import opened Opt
  import opened Time
  import opened Backoff
  import opened PowerSupply
  import opened Collapse
  import opened Sweep
  import opened Control
  import opened CollapseLog
  import opened LowVoltage

  /** The published names the core marks dirty. */
  const StateKey := "state"
  const SetpointKey := "setpoint"
  const InVoltKey := "involt"
  const OffThresholdKey := "offthreshold"
  const CollapsesKey := "collapses"
  const TelemetryKeys := {"outvolt", "outcurr", "outputEN", "outpower", "currFilt"}
  const AdjustKeys := {"outcurr", "outpower"}

  const PollPeriod := 25
  const PollWindow := 8000
  const MaxPolls := 320
  /** `offThreshold_` at or above this is the uncalibrated start-up value. */
  const Uncalibrated := 1000.0
  /** Output voltage limits `doAdjust` checks before enabling the output. */
  const ShutdownWindow := 30000

  /** The settings the remote configuration layer writes; the engine only reads them. */
  datatype Config = Config(
    pgain: real, ramplimit: real, currentCap: real,
    adjustPeriod: int, measperiod: int, printPeriod: int, autoSweep: int)

  /** The low-voltage protector's state. */
  datatype Lv = Lv(threshold: real, threshRecovery: real, relay: bool, nextCheck: Millis)

  /** Everything the engine reads and writes apart from the low-voltage protector (a separate
      object): the `Solar` fields, the next-due timestamps, the model of `millis()` and the PSU. */
  datatype Core = Core(
    cfg: Config,
    state: State,
    psu: Option<Psu>,
    inVolt: real,
    setpoint: real,
    offThreshold: real,
    backoffLevel: int,
    collapses: seq<Millis>,
    sweepPoints: seq<SPoint>,
    dirty: set<string>,
    clock: Millis,
    nextVmeas: Millis,
    nextSolarAdjust: Millis,
    nextPrint: Millis,
    nextPSUpdate: Millis,
    nextAutoSweep: Millis,
    lastAutoSweep: Millis)

  /** What the hardware answers during one operation: whether the PSU accepts the commands
      (`link`), the telemetry of a `doUpdate()` (None: it failed), the current of a
      `readCurrent()`, the input voltage `measureInvolt()` reads first, and the readings the
      collapse-recovery poll takes, in order. */
  datatype Io = Io(link: bool, telemetry: Option<Psu>, current: Option<real>, volt: real, polls: nat -> real)

  /** The answers for each branch of one `loop()` tick. */
  datatype TickIo = TickIo(otaPending: bool, measure: Io, adjustMeasure: Io, adjust: Io,
                           psuUpdate: Option<Psu>, sweep: Io)

  /** The invariant every operation keeps: the back-off counter stays in [0, 8], the sweep
      buffer holds samples only while sweeping, and without a PSU the state is `off` or `error`. */
  predicate Inv(c: Core)
  {
    && 0 <= c.backoffLevel <= MaxLevel
    && (c.sweepPoints != [] ==> c.state == Sweeping)
    && (c.psu.None? ==> c.state == Off || c.state == Error)
  }

  /** The state of a new controller: `off`, no PSU, no protector, and the next-due times of
      lines 30-32 (the first adjustment is held off for a second). */
  function Initial(cfg: Config, setpoint: real, offThreshold: real): (r: Core)
    ensures Inv(r) && r.state == Off && r.psu.None? && r.sweepPoints == [] && r.collapses == []
  {
    Core(cfg, Off, None, 0.0, setpoint, offThreshold, 0, [], [], {}, 0, 0, 1000, 0, 0, 0, 0)
  }

  /** `setPSU` with a device the factory accepted: it becomes the controller's PSU, and a
      default 200 ms measuring period is slowed to 500 ms for families other than Drok. */
  function InstallPsu(c: Core, p: Psu): (r: Core)
    requires Inv(c)
    ensures Inv(r) && r.psu == Some(p) && r.state == c.state
    ensures r.cfg.measperiod == (if !p.drok && c.cfg.measperiod == 200 then 500 else c.cfg.measperiod)
  {
    c.(psu := Some(p), cfg := if !p.drok && c.cfg.measperiod == 200 then c.cfg.(measperiod := 500) else c.cfg)
  }

  /** `setLVProtect` with a protector: its first check is held off 5 s; its thresholds and
      latch are kept. */
  function InstallLv(c: Core, lv: Lv): (r: Lv)
    ensures r.nextCheck == Add(c.clock, 5000) && Elapsed(r.nextCheck, c.clock) == 5000
    ensures r.threshold == lv.threshold && r.threshRecovery == lv.threshRecovery && r.relay == lv.relay
  {
    ElapsedAfterAdd(c.clock, 5000);
    lv.(nextCheck := Add(c.clock, 5000))
  }

  // ---------------------------------------------------------------- leaf operations

  /** `setState`. */
  function SetState(c: Core, s: State): Core
  {
    c.(state := s, dirty := if c.state != s then c.dirty + {StateKey} else c.dirty)
  }

  /** `setState` marks the state dirty exactly when it changes it, touches nothing else, and
      repeating it changes nothing. */
  lemma SetStateMarksChanges(c: Core, s: State)
    ensures var r := SetState(c, s);
      && r.state == s
      && (StateKey in r.dirty <==> StateKey in c.dirty || c.state != s)
      && r.dirty - {StateKey} == c.dirty - {StateKey}
      && r == c.(state := s, dirty := r.dirty)
      && SetState(r, s) == r
      && (c.state == s ==> r == c)
  {
  }

  /** `delay(ms)`. */
  function Delay(c: Core, ms: int): Core
  {
    c.(clock := Add(c.clock, ms))
  }

  /** `measureInvolt()` with the reading `v`. */
  function MeasureInvolt(c: Core, v: real): Core
  {
    c.(inVolt := v, dirty := c.dirty + {InVoltKey})
  }

  /** `pub_.setDirty(keys)`: the keys are marked changed for the next publication. */
  function MarkDirty(c: Core, keys: set<string>): (r: Core)
    ensures r.dirty == c.dirty + keys && r == c.(dirty := r.dirty)
  {
    c.(dirty := c.dirty + keys)
  }

  /** Whether `updatePSU()` succeeds. */
  predicate PsuUpdated(c: Core, telemetry: Option<Psu>)
  {
    c.psu.Some? && telemetry.Some?
  }

  /** `updatePSU()`. */
  function UpdatePsu(c: Core, telemetry: Option<Psu>): Core
  {
    if PsuUpdated(c, telemetry) then
      c.(psu := Some(Refresh(c.psu.value, telemetry)), dirty := c.dirty + TelemetryKeys)
    else c
  }

  /** Whether `applyAdjustment(current)` sends a command to the PSU. */
  predicate Issues(c: Core, current: real)
  {
    c.psu.Some? && current != c.psu.value.limitCurr
  }

  /** `applyAdjustment(current)`: nothing unless the request differs from the current limit;
      otherwise `setCurrent`, `delay(50)`, `readCurrent()`. */
  function ApplyAdjustment(c: Core, current: real, io: Io): (r: Core)
    ensures r == c.(psu := r.psu, clock := r.clock, dirty := r.dirty)
    ensures r.psu.Some? <==> c.psu.Some?
    ensures c.psu.Some? ==> r.psu.value == c.psu.value.(limitCurr := r.psu.value.limitCurr, outCurr := r.psu.value.outCurr)
    ensures c.psu.Some? ==> r.psu.value.limitCurr == (if io.link then current else c.psu.value.limitCurr)
  {
    if Issues(c, current) then
      var c1 := Delay(c.(psu := Some(SetCurrent(c.psu.value, current, io.link))), 50);
      MarkDirty(c1.(psu := Some(ReadCurrent(c1.psu.value, io.current))), AdjustKeys)
    else c
  }

  /** Applying the same request again after the PSU accepted it sends no second command, and
      a request equal to the limit is a no-op. */
  lemma ApplyAdjustmentIdempotent(c: Core, current: real, io: Io, io2: Io)
    requires io.link
    ensures !Issues(ApplyAdjustment(c, current, io), current)
    ensures ApplyAdjustment(ApplyAdjustment(c, current, io), current, io2) == ApplyAdjustment(c, current, io)
    ensures !Issues(c, current) ==> ApplyAdjustment(c, current, io) == c
  {
  }

  /** The number of 25 ms waits of the recovery poll that starts at reading `k`: it stops at
      the first reading at or above the threshold, or when the 8 s window is used up. */
  function PollStop(polls: nat -> real, threshold: real, k: nat): (n: nat)
    requires k <= MaxPolls
    ensures k <= n <= MaxPolls
    decreases MaxPolls - k
  {
    if k == MaxPolls || polls(k) >= threshold then k else PollStop(polls, threshold, k + 1)
  }

  /** The poll stops at `n` exactly when every reading from `k` to `n` is below the threshold
      and reading `n` is not (or the window is used up at `n`). */
  lemma {:induction false} PollStopIsFirstReached(polls: nat -> real, threshold: real, k: nat, n: nat)
    requires k <= n <= MaxPolls
    ensures PollStop(polls, threshold, k) == n <==>
      (forall j :: k <= j < n ==> polls(j) < threshold) && (n < MaxPolls ==> polls(n) >= threshold)
    decreases MaxPolls - k
  {
    if k < MaxPolls && polls(k) < threshold && k < n {
      PollStopIsFirstReached(polls, threshold, k + 1, n);
    }
  }

  /** The index of the reading taken after the poll: the poll itself read `n + 1` values when
      a reading ended it, `n` when the window did. */
  function FinalReading(n: nat): nat
  {
    if n < MaxPolls then n + 1 else MaxPolls
  }

  /** `restoreFromCollapse(restoreCurrent)`: drop the limit to 0.01 A, poll the input until
      it reaches `offThreshold_` or 8 s pass, calibrate an uncalibrated threshold to 99.2 % of
      the voltage then read, and set the restore current. */
  function Restore(c: Core, restoreCurrent: real, io: Io): (r: Core)
    requires c.psu.Some?
    ensures r == c.(psu := r.psu, clock := r.clock, inVolt := r.inVolt, offThreshold := r.offThreshold, dirty := r.dirty)
    ensures r.psu.Some? && r.psu.value == c.psu.value.(limitCurr := r.psu.value.limitCurr)
    ensures r.psu.value.limitCurr == (if io.link then restoreCurrent else c.psu.value.limitCurr)
  {
    var n := PollStop(io.polls, c.offThreshold, 0);
    var c1 := Poll(c.(psu := Some(SetCurrent(c.psu.value, 0.01, io.link))), io.polls);
    var c2 := Calibrate(MeasureInvolt(c1, io.polls(FinalReading(n))));
    c2.(psu := Some(SetCurrent(c2.psu.value, restoreCurrent, io.link)))
  }

  /** The poll of lines 356-358: the clock advances 25 ms per wait and the input voltage is
      the last reading taken, marked changed. */
  function Poll(c: Core, polls: nat -> real): (r: Core)
    ensures r == c.(clock := r.clock, inVolt := r.inVolt, dirty := r.dirty)
    ensures r.dirty == c.dirty + {InVoltKey}
  {
    var n := PollStop(polls, c.offThreshold, 0);
    c.(clock := Add(c.clock, PollPeriod * n), inVolt := polls(FinalReading(n) - 1), dirty := c.dirty + {InVoltKey})
  }

  /** One pass of the poll loop at lines 357-358: read the input and, while the reading is
      below `offThreshold_`, wait 25 ms. */
  function PollOnce(c: Core, v: real): (r: Core)
    ensures r == c.(clock := r.clock, inVolt := v, dirty := c.dirty + {InVoltKey})
    ensures r.clock == if v < c.offThreshold then Add(c.clock, PollPeriod) else c.clock
  {
    var m := MeasureInvolt(c, v);
    if v < c.offThreshold then Delay(m, PollPeriod) else m
  }

  /** The state after `k` passes of the poll loop, each reading below the threshold. */
  function Polled(c: Core, polls: nat -> real, k: nat): Core
  {
    if k == 0 then c
    else c.(clock := Add(c.clock, PollPeriod * k), inVolt := polls(k - 1), dirty := c.dirty + {InVoltKey})
  }

  /** A pass whose reading is below the threshold extends the passes before it. */
  lemma PolledStep(c: Core, polls: nat -> real, k: nat)
    requires k < MaxPolls && polls(k) < c.offThreshold
    ensures Polled(c, polls, k + 1) == PollOnce(Polled(c, polls, k), polls(k))
  {
    AddAdd(c.clock, PollPeriod * k, PollPeriod);
  }

  /** The poll loop run to its end, by a reading that reached the threshold after `n` passes
      below it or by the window being used up after `n == MaxPolls` passes, is `Poll`. */
  lemma PollEnds(c: Core, polls: nat -> real, n: nat, reached: bool)
    requires n <= MaxPolls && (forall j :: 0 <= j < n ==> polls(j) < c.offThreshold)
    requires reached ==> n < MaxPolls && polls(n) >= c.offThreshold
    requires !reached ==> n == MaxPolls
    ensures PollStop(polls, c.offThreshold, 0) == n
    ensures Poll(c, polls) == if reached then PollOnce(Polled(c, polls, n), polls(n)) else Polled(c, polls, n)
  {
    PollStopIsFirstReached(polls, c.offThreshold, 0, n);
  }

  /** Lines 360-364: an uncalibrated threshold becomes 99.2 % of the input voltage just read,
      and is marked changed; a calibrated one is kept. */
  function Calibrate(c: Core): (r: Core)
    ensures r == c.(offThreshold := r.offThreshold, dirty := r.dirty)
    ensures c.offThreshold < Uncalibrated ==> r == c
    ensures c.offThreshold >= Uncalibrated ==> r.offThreshold == 0.992 * c.inVolt && OffThresholdKey in r.dirty
  {
    if c.offThreshold >= Uncalibrated then
      c.(offThreshold := 0.992 * c.inVolt, dirty := c.dirty + {OffThresholdKey})
    else c
  }

  /** Recovery blocks for at most 8 s; it ends early exactly when a reading reaches the
      threshold, every earlier reading being below it; the PSU ends at the restore current
      when it accepts commands; a calibrated threshold is left alone. */
  lemma RestoreBounded(c: Core, restoreCurrent: real, io: Io)
    requires c.psu.Some?
    ensures var n := PollStop(io.polls, c.offThreshold, 0);
            var r := Restore(c, restoreCurrent, io);
      && PollPeriod * n <= PollWindow
      && Elapsed(r.clock, c.clock) == PollPeriod * n
      && (n < MaxPolls <==> exists k :: 0 <= k < MaxPolls && io.polls(k) >= c.offThreshold)
      && (forall k :: 0 <= k < n ==> io.polls(k) < c.offThreshold)
      && (io.link ==> r.psu.value.limitCurr == restoreCurrent)
      && (!io.link ==> r.psu == c.psu)
      && (c.offThreshold < Uncalibrated ==> r.offThreshold == c.offThreshold)
  {
    var n := PollStop(io.polls, c.offThreshold, 0);
    PollStopIsFirstReached(io.polls, c.offThreshold, 0, n);
    ElapsedAfterAdd(c.clock, PollPeriod * n);
  }

  /** At start-up the threshold is uncalibrated and no reading reaches it: the poll uses the
      whole 8 s window and the threshold becomes 99.2 % of the voltage read afterwards. */
  lemma RestoreCalibrates(c: Core, restoreCurrent: real, io: Io)
    requires c.psu.Some? && c.offThreshold >= Uncalibrated
    requires forall k: nat :: io.polls(k) < Uncalibrated
    ensures var r := Restore(c, restoreCurrent, io);
      && Elapsed(r.clock, c.clock) == PollWindow
      && r.offThreshold == 0.992 * io.polls(MaxPolls)
      && r.offThreshold < Uncalibrated
      && OffThresholdKey in r.dirty
  {
    PollStopIsFirstReached(io.polls, c.offThreshold, 0, MaxPolls);
    var n := PollStop(io.polls, c.offThreshold, 0);
    ElapsedAfterAdd(c.clock, PollPeriod * n);
  }

  // ---------------------------------------------------------------- sweep

  /** `startSweep()`: refused in `error`; otherwise back the limit off to 90 % of the filtered
      current, first restore at 75 % when in collapse mode or collapsed, enter `sweeping`,
      enable a disabled output and note the start time. */
  function StartSweep(c: Core, io: Io): (r: Core)
    requires Inv(c) && (c.state == Error || c.psu.Some?)
    ensures Inv(r)
    ensures c.state == Error ==> r == c
    ensures c.state != Error ==> r.state == Sweeping && r.sweepPoints == c.sweepPoints
    ensures c.state != Error ==>
      var collapsed := c.state == CollapseMode || HasCollapsed(c.psu, c.inVolt);
      && r.psu.value.outEn == (c.psu.value.outEn || io.link)
      && (io.link ==> r.psu.value.limitCurr == c.psu.value.currFilt * (if collapsed then 0.75 else 0.90))
      && (!io.link ==> r.psu == c.psu)
      && r.lastAutoSweep == r.clock
      && (!collapsed ==> r.clock == c.clock)
  {
    if c.state == Error then c else EnterSweep(EaseOff(c, io), io)
  }

  /** Lines 234-239: back the current off by 10 %, and recover first when collapsed. */
  function EaseOff(c: Core, io: Io): (r: Core)
    requires c.psu.Some?
    ensures r == c.(psu := r.psu, clock := r.clock, inVolt := r.inVolt, offThreshold := r.offThreshold, dirty := r.dirty)
    ensures var collapsed := c.state == CollapseMode || HasCollapsed(c.psu, c.inVolt);
      && r.psu.Some? && r.psu.value == c.psu.value.(limitCurr := r.psu.value.limitCurr)
      && r.psu.value.limitCurr == (if io.link then c.psu.value.currFilt * (if collapsed then 0.75 else 0.90) else c.psu.value.limitCurr)
      && (!collapsed ==> r.clock == c.clock)
  {
    var c1 := c.(psu := Some(SetCurrent(c.psu.value, c.psu.value.currFilt * 0.90, io.link)));
    if c1.state == CollapseMode || HasCollapsed(c1.psu, c1.inVolt)
    then Restore(c1, c1.psu.value.currFilt * 0.75, io) else c1
  }

  /** Lines 240-243: enter `sweeping`, enable a disabled output, note the start time. */
  function EnterSweep(c: Core, io: Io): (r: Core)
    requires c.psu.Some?
    ensures r.state == Sweeping && r.psu.Some? && r.lastAutoSweep == c.clock
    ensures r == c.(state := r.state, psu := r.psu, dirty := r.dirty, lastAutoSweep := r.lastAutoSweep)
    ensures r.psu.value == c.psu.value.(outEn := c.psu.value.outEn || io.link)
  {
    var c1 := SetState(c, Sweeping);
    var c2 := if !c1.psu.value.outEn then c1.(psu := Some(EnableOutput(c1.psu.value, true, io.link))) else c1;
    c2.(lastAutoSweep := c2.clock)
  }

  /** Lines 236-238: a sweep started in collapse mode or with the output collapsed first runs the
      recovery poll. It blocks for the poll's waits (at most 8 s), stopping at the first reading
      that reaches the threshold; an accepting PSU then sweeps up from 75 % of the filtered
      current with its output on, and the sweep's start time is taken after the poll. */
  lemma StartSweepRecovers(c: Core, io: Io)
    requires Inv(c) && c.state != Error && c.psu.Some?
    requires c.state == CollapseMode || HasCollapsed(c.psu, c.inVolt)
    ensures var n := PollStop(io.polls, c.offThreshold, 0);
            var r := StartSweep(c, io);
      && Elapsed(r.clock, c.clock) == PollPeriod * n
      && PollPeriod * n <= PollWindow
      && (forall k :: 0 <= k < n ==> io.polls(k) < c.offThreshold)
      && (n < MaxPolls ==> io.polls(n) >= c.offThreshold)
      && r.lastAutoSweep == r.clock
      && (io.link ==> r.psu.value.outEn && r.psu.value.limitCurr == c.psu.value.currFilt * 0.75)
  {
    var c1 := c.(psu := Some(SetCurrent(c.psu.value, c.psu.value.currFilt * 0.90, io.link)));
    assert HasCollapsed(c1.psu, c1.inVolt) == HasCollapsed(c.psu, c.inVolt);
    var c2 := Restore(c1, c1.psu.value.currFilt * 0.75, io);
    assert EaseOff(c, io) == c2;
    assert StartSweep(c, io) == EnterSweep(c2, io);
    RestoreBounded(c1, c1.psu.value.currFilt * 0.75, io);
    PollStopIsFirstReached(io.polls, c.offThreshold, 0, PollStop(io.polls, c.offThreshold, 0));
  }

  /** The sample `doSweepStep` records after refreshing the telemetry. */
  function NewSample(c: Core): SPoint
    requires c.psu.Some?
  {
    SPoint(c.psu.value.outVolt, c.psu.value.outCurr, c.inVolt, HasCollapsed(c.psu, c.inVolt))
  }

  /** The concluding block of lines 277-292, for a sweep that found headroom. */
  function Settle(c: Core, k: Conclusion, io: Io): (r: Core)
    requires c.psu.Some? && (k.RunCollapsed? || k.Track?)
    ensures r.sweepPoints == [] && r.psu.Some? && r.setpoint == k.setpoint
    ensures r.state == (if k.RunCollapsed? then CollapseMode else Mppt)
    ensures SetpointKey in r.dirty
    ensures r.cfg == c.cfg && r.nextVmeas == c.nextVmeas && r.backoffLevel == c.backoffLevel
  {
    Publish(Steer(c, k, io), k.setpoint)
  }

  /** Lines 277-288: run collapsed in collapse mode, or enter `mppt` and recover at the current
      of the backed-off peak. */
  function Steer(c: Core, k: Conclusion, io: Io): (r: Core)
    requires c.psu.Some? && (k.RunCollapsed? || k.Track?)
    ensures r.psu.Some? && r.state == (if k.RunCollapsed? then CollapseMode else Mppt)
    ensures r.cfg == c.cfg && r.nextVmeas == c.nextVmeas && r.backoffLevel == c.backoffLevel
  {
    if k.RunCollapsed? then RunAtCap(SetState(c, CollapseMode), io)
    else Restore(SetState(c, Mppt), k.restoreCurrent, io)
  }

  /** Lines 280-281: the limit goes to the current cap (10 A when none is set) and the next
      auto-sweep is due after a third of the interval. */
  function RunAtCap(c: Core, io: Io): (r: Core)
    requires c.psu.Some?
    ensures r == c.(psu := r.psu, nextAutoSweep := r.nextAutoSweep) && r.psu.Some?
    ensures io.link ==> r.psu.value.limitCurr == (if c.cfg.currentCap > 0.0 then c.cfg.currentCap else 10.0)
  {
    var cap := c.cfg.currentCap;
    c.(psu := Some(SetCurrent(c.psu.value, if cap > 0.0 then cap else 10.0, io.link)),
       nextAutoSweep := Add(c.clock, CDiv(c.cfg.autoSweep * 1000, 3)))
  }

  /** Lines 282, 288 and 290-292: the new set-point is published, the next adjustment is held off
      for a second and the buffer is emptied. */
  function Publish(c: Core, setpoint: real): (r: Core)
    ensures r.setpoint == setpoint && SetpointKey in r.dirty && r.sweepPoints == []
    ensures r == c.(setpoint := r.setpoint, dirty := r.dirty, nextSolarAdjust := r.nextSolarAdjust, sweepPoints := [])
    ensures Elapsed(r.nextSolarAdjust, c.clock) == 1000
  {
    ElapsedAfterAdd(c.clock, 1000);
    c.(setpoint := setpoint, dirty := c.dirty + {SetpointKey}, nextSolarAdjust := Add(c.clock, 1000), sweepPoints := [])
  }

  /** Leaving `sweeping` for `s`: the buffer is emptied (the source leaves it as it is). */
  function ExitSweep(c: Core, s: State): (r: Core)
    ensures r.state == s && r.sweepPoints == []
    ensures r == c.(state := s, dirty := r.dirty, sweepPoints := [])
  {
    SetState(c, s).(sweepPoints := [])
  }

  /** The exits of lines 296-307: at the current cap track the newest sample's input voltage
      and apply the cap; in constant-voltage mode stop in `full_cv`; otherwise raise the
      current by 1 mA per input volt, up to 1 mA above the cap. All exits other than the
      ramp empty the buffer. */
  function Finish(c: Core, newest: SPoint, io: Io): (r: Core)
    requires c.psu.Some?
    ensures r.sweepPoints == [] || r == c.(psu := r.psu, clock := r.clock, dirty := r.dirty)
    ensures r.psu.Some? && r.cfg == c.cfg && r.nextVmeas == c.nextVmeas && r.backoffLevel == c.backoffLevel
    ensures r.state == c.state || r.state == Mppt || r.state == FullCv
    ensures var p := c.psu.value;
            var cap := c.cfg.currentCap;
      && (p.limitCurr >= cap ==>
            && r.state == Mppt && r.setpoint == newest.input && r.sweepPoints == []
            && (io.link ==> r.psu.value.limitCurr == cap))
      && (p.limitCurr < cap && p.cv ==>
            r.state == FullCv && r.sweepPoints == [] && r.psu == c.psu && r.clock == c.clock)
      && (p.limitCurr < cap && !p.cv ==>
            && r.state == c.state && r.sweepPoints == c.sweepPoints && r.setpoint == c.setpoint
            && var up := p.limitCurr + c.inVolt * 0.001;
               io.link ==> r.psu.value.limitCurr == (if up < cap + 0.001 then up else cap + 0.001))
  {
    var p := c.psu.value;
    var cap := c.cfg.currentCap;
    if p.limitCurr >= cap then
      ApplyAdjustment(ExitSweep(c.(setpoint := newest.input), Mppt), cap, io)
    else if p.cv then
      ExitSweep(c, FullCv)
    else
      var up := p.limitCurr + c.inVolt * 0.001;
      ApplyAdjustment(c, if up < cap + 0.001 then up else cap + 0.001, io)
  }

  /** `doSweepStep()`, with the buffer emptied on every exit from sweeping and the cap exit
      reading the sample recorded on this step. */
  function SweepStep(c: Core, io: Io): (r: Core)
    requires Inv(c) && c.state == Sweeping
    ensures Inv(r)
    ensures r.cfg == c.cfg && r.nextVmeas == c.nextVmeas
  {
    if c.psu.None? then c
    else if !c.psu.value.outEn then ExitSweep(c, Mppt)
    else SweepSample(UpdatePsu(c, io.telemetry), io)
  }

  /** Lines 253-254: record the refreshed telemetry as the newest sample, then decide. */
  function SweepSample(c: Core, io: Io): (r: Core)
    requires c.psu.Some? && c.state == Sweeping && 0 <= c.backoffLevel <= MaxLevel
    ensures Inv(r)
    ensures r.cfg == c.cfg && r.nextVmeas == c.nextVmeas
  {
    var newest := NewSample(c);
    SweepDecision(c.(sweepPoints := c.sweepPoints + [newest]), newest, io)
  }

  /** Lines 255-307 once the newest sample is at the back of the buffer. */
  function SweepDecision(c: Core, newest: SPoint, io: Io): (r: Core)
    requires c.psu.Some? && |c.sweepPoints| > 0 && c.state == Sweeping && 0 <= c.backoffLevel <= MaxLevel
    ensures Inv(r)
    ensures r.cfg == c.cfg && r.nextVmeas == c.nextVmeas
  {
    var k := Conclude(c.sweepPoints, |c.collapses|);
    if k.NoHeadroom? then
      ExitSweep(Restore(c, c.psu.value.currFilt * 0.5, io), Mppt)
    else
      Finish(if k.Pending? then c else Settle(c, k, io), newest, io)
  }

  /** A step that does not conclude and hits neither exit keeps sweeping with the new sample
      appended at the back of the buffer. */
  lemma SweepStepAppends(c: Core, io: Io)
    requires Inv(c) && c.state == Sweeping && c.psu.Some? && c.psu.value.outEn
    requires var c1 := UpdatePsu(c, io.telemetry);
      && Conclude(c1.sweepPoints + [NewSample(c1)], |c1.collapses|) == Pending
      && c1.psu.value.limitCurr < c.cfg.currentCap && !c1.psu.value.cv
    ensures var c1 := UpdatePsu(c, io.telemetry);
            var r := SweepStep(c, io);
      && r.state == Sweeping
      && r.sweepPoints == c.sweepPoints + [NewSample(c1)]
  {
  }

  /** A step that concludes leaves the buffer empty and the set-point on the decision's
      voltage, or on the newest sample's input when the cap exit follows; it never stays in
      `sweeping`. */
  lemma SweepStepConcludes(c: Core, io: Io)
    requires Inv(c) && c.state == Sweeping && c.psu.Some? && c.psu.value.outEn
    requires var c1 := UpdatePsu(c, io.telemetry);
      Conclude(c1.sweepPoints + [NewSample(c1)], |c1.collapses|) != Pending
    ensures var c1 := UpdatePsu(c, io.telemetry);
            var k := Conclude(c1.sweepPoints + [NewSample(c1)], |c1.collapses|);
            var r := SweepStep(c, io);
      && r.sweepPoints == []
      && r.state != Sweeping
      && (k.NoHeadroom? ==> r.state == Mppt && r.setpoint == c.setpoint)
      && (k.RunCollapsed? || k.Track? ==>
            r.setpoint == k.setpoint || r.setpoint == NewSample(c1).input)
  {
  }

  /** With the cap positive and the PSU accepting the command, a decision to run collapsed is
      overridden on the same step: setting the cap as the limit triggers the cap exit, which
      returns to `mppt`. */
  lemma CollapseDecisionMeetsCapExit(c: Core, io: Io)
    requires Inv(c) && c.state == Sweeping && c.psu.Some? && c.psu.value.outEn
    requires io.link && c.cfg.currentCap > 0.0
    requires var c1 := UpdatePsu(c, io.telemetry);
      Conclude(c1.sweepPoints + [NewSample(c1)], |c1.collapses|).RunCollapsed?
    ensures SweepStep(c, io).state == Mppt
    ensures SweepStep(c, io).psu.value.limitCurr == c.cfg.currentCap
  {
  }

  /** As written, line 298 reads `sweepPoints_.back()` after line 292 cleared the buffer when
      a concluding step also meets the cap: the read is of an empty vector. */
  predicate CapExitReadsClearedBuffer(c: Core, io: Io)
    requires Inv(c) && c.state == Sweeping
  {
    c.psu.Some? && c.psu.value.outEn &&
    var c1 := UpdatePsu(c, io.telemetry);
    var k := Conclude(c1.sweepPoints + [NewSample(c1)], |c1.collapses|);
    (k.RunCollapsed? || k.Track?) &&
    Settle(c1.(sweepPoints := c1.sweepPoints + [NewSample(c1)]), k, io).psu.value.limitCurr >= c.cfg.currentCap
  }

  /** An instance: a sweep with one uncollapsed and one collapsed sample whose next sample
      collapses at 4 W, below the 5 W sample, with the PSU refusing commands and already at
      the 2 A cap. The decision tracks, the buffer is cleared, and the cap exit then reads it. */
  lemma CapExitAfterConclusionExample(c: Core, io: Io)
    requires c.state == Sweeping && c.backoffLevel == 0 && c.cfg.currentCap == 2.0
    requires c.sweepPoints == [SPoint(10.0, 0.5, 20.0, false), SPoint(8.0, 0.5, 15.0, true)]
    requires c.psu == Some(Psu(true, 8.0, 0.5, 2.0, 14.0, 0.5, 0, false, true, false))
    requires c.inVolt == 9.0 && !io.link && io.telemetry.None?
    ensures Inv(c) && CapExitReadsClearedBuffer(c, io)
    ensures SweepStep(c, io).setpoint == 9.0 && SweepStep(c, io).sweepPoints == []
  {
    var c1 := UpdatePsu(c, io.telemetry);
    assert c1 == c;
    var newest := NewSample(c1);
    assert newest == SPoint(8.0, 0.5, 9.0, true);
    var pts := c.sweepPoints + [newest];
    assert CollapsedCount(pts) == 2 by {
      assert pts[..2] == c.sweepPoints;
      assert c.sweepPoints[..1][..0] == [];
      assert CollapsedCount(c.sweepPoints[..1]) == 0;
      assert CollapsedCount(c.sweepPoints) == 1;
    }
    PeakIsUnique(pts, MaxIndex(pts), 0);
    assert Conclude(pts, |c1.collapses|).Track?;
  }

  // ---------------------------------------------------------------- measurement and state

  function LimitOrZero(psu: Option<Psu>): real
  {
    if psu.Some? then psu.value.limitCurr else 0.0
  }

  /** `doMeasure()`: read the input voltage; while sweeping, take a sweep step; otherwise,
      with a set-point and an enabled PSU, request the proportional correction (rescheduling
      the adjustment to now on a quick correction). Returns the desired current. */
  function Measure(c: Core, io: Io): (r: (Core, real))
    requires Inv(c)
    ensures Inv(r.0)
    ensures r.0.cfg == c.cfg && r.0.nextVmeas == c.nextVmeas
  {
    var c1 := MeasureInvolt(c, io.volt);
    if c1.state == Sweeping then
      var c2 := SweepStep(c1, io);
      (c2, LimitOrZero(c2.psu))
    else Proportional(c1)
  }

  /** Lines 373-384: with a set-point and an enabled PSU, the proportional correction
      (rescheduling the adjustment to now on a quick one); otherwise the current limit. */
  function Proportional(c: Core): (r: (Core, real))
    ensures r.0 == c.(nextSolarAdjust := r.0.nextSolarAdjust)
    ensures r.0.nextSolarAdjust == c.nextSolarAdjust || r.0.nextSolarAdjust == c.clock
  {
    if c.setpoint > 0.0 && c.psu.Some? && c.psu.value.outEn then
      var e := c.inVolt - c.setpoint;
      var c2 := if OutsideDeadband(e) && Quick(e, c.state) then c.(nextSolarAdjust := c.clock) else c;
      (c2, Desired(c.psu.value.limitCurr, e, c.cfg.pgain, c.cfg.ramplimit, c.cfg.currentCap))
    else (c, LimitOrZero(c.psu))
  }

  /** Outside a sweep, the measurement changes only the input voltage (and, on a quick
      correction, the adjustment time); its request stays within the deadband and cap rules. */
  lemma MeasureOutsideSweep(c: Core, io: Io)
    requires Inv(c) && c.state != Sweeping
    ensures var r := Measure(c, io);
      && r.0.state == c.state && r.0.psu == c.psu && r.0.sweepPoints == c.sweepPoints
      && r.0.inVolt == io.volt
      && r.0 == c.(inVolt := io.volt, dirty := c.dirty + {InVoltKey}, nextSolarAdjust := r.0.nextSolarAdjust)
      && (r.0.nextSolarAdjust == c.nextSolarAdjust || r.0.nextSolarAdjust == c.clock)
      && (c.setpoint > 0.0 && c.psu.Some? && c.psu.value.outEn ==>
            var e := io.volt - c.setpoint;
            && (-0.2 <= e <= 0.3 ==> r.1 == c.psu.value.limitCurr)
            && (OutsideDeadband(e) ==> r.1 <= c.cfg.currentCap))
      && (!(c.setpoint > 0.0 && c.psu.Some? && c.psu.value.outEn) ==> r.1 == LimitOrZero(c.psu))
  {
    if c.setpoint > 0.0 && c.psu.Some? && c.psu.value.outEn {
      var e := io.volt - c.setpoint;
      var p := c.psu.value;
      if OutsideDeadband(e) {
        var d := Constrain(e * c.cfg.pgain, -c.cfg.ramplimit * 2.0, c.cfg.ramplimit);
        assert Desired(p.limitCurr, e, c.cfg.pgain, c.cfg.ramplimit, c.cfg.currentCap) <= c.cfg.currentCap;
      }
    }
  }

  /** `doUpdateState()`. */
  function UpdateState(c: Core): (r: Core)
    requires Inv(c)
    ensures Inv(r)
  {
    SetState(c, NextState(c.state, c.psu, c.inVolt, c.cfg.currentCap, c.clock))
  }

  // ---------------------------------------------------------------- adjustment

  datatype BackoffReason = PsuFailure | TooDark | BatteryMismatch

  /** The back-off signal of `doAdjust`, as a tagged result. */
  datatype Outcome = Ok | NeedsBackoff(reason: BackoffReason)

  /** A collapse event as `doAdjust` records it: corrections enabled, not sweeping, not in
      `error` or collapse mode, and `hasCollapsed()`. */
  predicate CollapseEvent(c: Core)
  {
    c.state != Error && c.setpoint > 0.0 && c.state != Sweeping && c.state != CollapseMode &&
    HasCollapsed(c.psu, c.inVolt)
  }

  /** Lines 432-434: apply the desired current when the output is on and not in collapse mode. */
  function ApplyIfEnabled(c: Core, desired: real, io: Io): Core
  {
    if c.psu.Some? && c.psu.value.outEn && c.state != CollapseMode then ApplyAdjustment(c, desired, io) else c
  }

  /** The `try` block of `doAdjust` (lines 408-435). */
  function TryAdjust(c: Core, desired: real, io: Io): (r: (Core, Outcome))
    ensures r.0.state == c.state && r.0.backoffLevel == c.backoffLevel && r.0.sweepPoints == c.sweepPoints
    ensures r.0.psu.Some? <==> c.psu.Some?
    ensures r.0.cfg == c.cfg && r.0.nextVmeas == c.nextVmeas
  {
    var now := c.clock;
    if c.state == Error then
      if c.psu.Some? && Elapsed(now, c.psu.value.lastSuccess) < ShutdownWindow then
        var c1 := c.(psu := Some(EnableOutput(c.psu.value, false, io.link)));
        (c1.(psu := Some(SetCurrent(c1.psu.value, 0.0, io.link))), NeedsBackoff(PsuFailure))
      else (c, Ok)
    else if c.setpoint > 0.0 && c.state != Sweeping then Correct(c, desired, io)
    else (c, Ok)
  }

  /** Lines 415-431: a collapse is recorded and recovered from, or a disabled output passes the
      start-up check and is switched on; a failed check ends the attempt with its reason. */
  function Prepare(c: Core, io: Io): (r: (Core, Outcome))
    ensures r.0.state == c.state && r.0.backoffLevel == c.backoffLevel && r.0.sweepPoints == c.sweepPoints
    ensures r.0.psu.Some? <==> c.psu.Some?
    ensures r.0.cfg == c.cfg && r.0.nextVmeas == c.nextVmeas
    ensures r.1.NeedsBackoff? ==> r.0 == c
  {
    if HasCollapsed(c.psu, c.inVolt) && c.state != CollapseMode then
        var c1 := RecordCollapse(c);
        (Restore(c1, c1.psu.value.currFilt * 0.95, io), Ok)
      else if c.psu.Some? && !c.psu.value.outEn then
        var p := c.psu.value;
        if c.inVolt < p.outVolt || p.outVolt < 0.1 then (c, NeedsBackoff(TooDark))
        else if p.outVolt > p.limitVolt || (p.outVolt < p.limitVolt * 0.60 && p.outVolt > 1.0) then
          (c, NeedsBackoff(BatteryMismatch))
        else (c.(psu := Some(EnableOutput(p, true, io.link))), Ok)
      else (c, Ok)
  }

  /** Lines 416-417: the collapse is logged with the current time and marked changed. */
  function RecordCollapse(c: Core): (r: Core)
    ensures r == c.(collapses := r.collapses, dirty := r.dirty)
    ensures r.collapses == Record(c.collapses, c.clock) && CollapsesKey in r.dirty
  {
    c.(collapses := Record(c.collapses, c.clock), dirty := c.dirty + {CollapsesKey})
  }

  /** Lines 414-434: with corrections enabled, handle a collapse or the start-up check, then
      apply the desired current (lines 432-434). */
  function Correct(c: Core, desired: real, io: Io): (r: (Core, Outcome))
    ensures r.0.state == c.state && r.0.backoffLevel == c.backoffLevel && r.0.sweepPoints == c.sweepPoints
    ensures r.0.psu.Some? <==> c.psu.Some?
    ensures r.0.cfg == c.cfg && r.0.nextVmeas == c.nextVmeas
  {
    var p := Prepare(c, io);
    if p.1.Ok? then (ApplyIfEnabled(p.0, desired, io), Ok) else p
  }

  /** `doAdjust(desired)`: the `try` block, the back-off counter, one pruning pass. */
  function Adjust(c: Core, desired: real, io: Io): (r: Core)
    requires Inv(c)
    ensures Inv(r)
    ensures r.cfg == c.cfg && r.nextVmeas == c.nextVmeas
  {
    var t := TryAdjust(c, desired, io);
    PruneOnce(StepBackoff(t.0, t.1.NeedsBackoff?))
  }

  /** Lines 436-438: the back-off counter moves one step. */
  function StepBackoff(c: Core, backoff: bool): (r: Core)
    requires 0 <= c.backoffLevel <= MaxLevel
    ensures r == c.(backoffLevel := r.backoffLevel) && 0 <= r.backoffLevel <= MaxLevel
  {
    c.(backoffLevel := NextLevel(c.backoffLevel, backoff))
  }

  /** Lines 441-444: a stale front entry of the collapse log is dropped and the log marked changed. */
  function PruneOnce(c: Core): (r: Core)
    ensures r == c.(collapses := r.collapses, dirty := r.dirty)
    ensures r.collapses == Prune(c.collapses, c.clock)
    ensures CollapsesKey in r.dirty <==> CollapsesKey in c.dirty || r.collapses != c.collapses
  {
    if |c.collapses| > 0 && Stale(c.collapses[0], c.clock) then
      c.(collapses := c.collapses[1..], dirty := c.dirty + {CollapsesKey})
    else c
  }

  /** The back-off counter moves one step: up (ceiling 8) exactly when the `try` block
      signalled back-off, down (floor 0) otherwise. */
  lemma AdjustBackoff(c: Core, desired: real, io: Io)
    requires Inv(c)
    ensures Adjust(c, desired, io).backoffLevel == NextLevel(c.backoffLevel, TryAdjust(c, desired, io).1.NeedsBackoff?)
  {
  }

  /** The collapse log: an entry stamped with the adjustment's start time is appended at the
      back exactly on a collapse event, and then one pruning pass runs at the time the
      adjustment ends; nothing else touches the log. */
  lemma AdjustCollapseLog(c: Core, desired: real, io: Io)
    requires Inv(c)
    ensures var t := TryAdjust(c, desired, io);
            var r := Adjust(c, desired, io);
      && t.0.collapses == (if CollapseEvent(c) then Record(c.collapses, c.clock) else c.collapses)
      && r.collapses == Prune(t.0.collapses, t.0.clock)
      && r.clock == t.0.clock
  {
  }

  /** In `error` with a PSU heard from within 30 s, the adjustment signals back-off and
      commands the output off at zero current. */
  lemma EmergencyShutdown(c: Core, desired: real, io: Io)
    requires c.state == Error && c.psu.Some? && Elapsed(c.clock, c.psu.value.lastSuccess) < ShutdownWindow
    ensures var t := TryAdjust(c, desired, io);
      && t.1 == NeedsBackoff(PsuFailure)
      && (io.link ==> !t.0.psu.value.outEn && t.0.psu.value.limitCurr == 0.0)
  {
  }

  /** The output is switched on only by the start-up check: never when the input is below
      the output or the output is unset ("is it dark?"), never when the battery voltage is
      above the PSU's voltage limit or between 1 V and 60 % of it. */
  lemma EnableOnlyWhenSafe(c: Core, desired: real, io: Io)
    requires c.psu.Some? && !c.psu.value.outEn
    requires TryAdjust(c, desired, io).0.psu.value.outEn
    ensures var p := c.psu.value;
      && c.state != Error && c.setpoint > 0.0 && c.state != Sweeping
      && c.inVolt >= p.outVolt && p.outVolt >= 0.1
      && p.outVolt <= p.limitVolt && !(p.outVolt < p.limitVolt * 0.60 && p.outVolt > 1.0)
      && TryAdjust(c, desired, io).1 == Ok
  {
  }

  /** Lines 420-428, the converse of `EnableOnlyWhenSafe`: with corrections enabled and the output
      off, a dark panel or a mismatched battery ends the attempt with its reason and changes
      nothing, and the back-off level rises; a safe start-up is Ok and, when accepted, switches the
      output on. */
  lemma UnsafeStartupBacksOff(c: Core, desired: real, io: Io)
    requires Inv(c) && c.state != Error && c.setpoint > 0.0 && c.state != Sweeping
    requires c.psu.Some? && !c.psu.value.outEn
    ensures var p := c.psu.value;
            var dark := c.inVolt < p.outVolt || p.outVolt < 0.1;
            var mismatch := p.outVolt > p.limitVolt || (p.outVolt < p.limitVolt * 0.60 && p.outVolt > 1.0);
      && (dark ==> TryAdjust(c, desired, io) == (c, NeedsBackoff(TooDark)))
      && (!dark && mismatch ==> TryAdjust(c, desired, io) == (c, NeedsBackoff(BatteryMismatch)))
      && (dark || mismatch ==> Adjust(c, desired, io).backoffLevel == NextLevel(c.backoffLevel, true))
      && (!dark && !mismatch ==> TryAdjust(c, desired, io).1 == Ok)
      && (!dark && !mismatch && io.link ==> TryAdjust(c, desired, io).0.psu.value.outEn)
  {
    AdjustBackoff(c, desired, io);
  }

  /** Lines 408-413: the shutdown attempts are bounded. In `error` with no PSU, or with the PSU
      silent for 30 s or more, the adjustment sends no command, signals no back-off, and the
      level falls. */
  lemma ShutdownWindowCloses(c: Core, desired: real, io: Io)
    requires Inv(c) && c.state == Error
    requires c.psu.Some? ==> Elapsed(c.clock, c.psu.value.lastSuccess) >= ShutdownWindow
    ensures TryAdjust(c, desired, io) == (c, Ok)
    ensures Adjust(c, desired, io).backoffLevel == NextLevel(c.backoffLevel, false)
  {
    AdjustBackoff(c, desired, io);
  }

  // ---------------------------------------------------------------- the periodic loop

  /** Lines 452-456: measure and re-evaluate the state when due; sweeping measures at half rate. */
  function MeasureBranch(c: Core, now: Millis, io: Io): (r: Core)
    requires Inv(c)
    ensures Inv(r)
  {
    if now > c.nextVmeas then
      var c1 := UpdateState(Measure(c, io).0);
      c1.(nextVmeas := Add(now, if c1.state == Sweeping then c1.cfg.measperiod * 2 else c1.cfg.measperiod))
    else c
  }

  /** Lines 458-462: measure and adjust when due, then wait the backed-off adjustment period. */
  function AdjustBranch(c: Core, now: Millis, measure: Io, adjust: Io): (r: Core)
    requires Inv(c)
    ensures Inv(r)
  {
    if now > c.nextSolarAdjust then
      var m := Measure(c, measure);
      var c1 := Adjust(m.0, m.1, adjust);
      c1.(nextSolarAdjust := Add(now, GetBackoff(c1.backoffLevel, c1.cfg.adjustPeriod)))
    else c
  }

  /** Lines 464-467: the status print's schedule. */
  function PrintBranch(c: Core, now: Millis): (r: Core)
    requires Inv(c)
    ensures Inv(r)
  {
    if now > c.nextPrint then c.(nextPrint := Add(now, c.cfg.printPeriod)) else c
  }

  /** Lines 469-481: refresh the PSU when due, then wait the backed-off 5 s period, at most 100 s. */
  function PsuBranch(c: Core, now: Millis, telemetry: Option<Psu>): (r: Core)
    requires Inv(c)
    ensures Inv(r)
  {
    if c.psu.Some? && now > c.nextPSUpdate then
      var c1 := UpdatePsu(c, telemetry);
      var wait := GetBackoff(c1.backoffLevel, 5000);
      c1.(nextPSUpdate := Add(now, if wait < 100000 then wait else 100000))
    else c
  }

  /** A due PSU refresh waits between 5 s and 100 s before the next one: the back-off
      stretches the 5 s base period, and from level 7 on the ceiling cuts it at 100 s. */
  lemma PsuRefreshBounded(c: Core, now: Millis, telemetry: Option<Psu>)
    requires Inv(c) && c.psu.Some? && now > c.nextPSUpdate
    ensures exists w :: 5000 <= w <= 100000 && PsuBranch(c, now, telemetry).nextPSUpdate == Add(now, w)
    ensures c.backoffLevel <= 1 ==> PsuBranch(c, now, telemetry).nextPSUpdate == Add(now, 5000)
    ensures c.backoffLevel >= 7 ==> PsuBranch(c, now, telemetry).nextPSUpdate == Add(now, 100000)
  {
    BackoffBounded(c.backoffLevel, 5000);
    var wait := GetBackoff(c.backoffLevel, 5000);
    assert UpdatePsu(c, telemetry).backoffLevel == c.backoffLevel;
    var w := if wait < 100000 then wait else 100000;
    assert PsuBranch(c, now, telemetry).nextPSUpdate == Add(now, w);
    if c.backoffLevel >= 7 {
      BackoffMonotone(7, c.backoffLevel, 5000);
      assert GetBackoff(7, 5000) == 125000;
    }
  }

  /** Lines 483-495: the low-voltage check when due. */
  function LvBranch(c: Core, lv: Option<Lv>, now: Millis): (r: (Core, Option<Lv>))
    requires Inv(c)
    ensures Inv(r.0) && r.0 == c.(clock := r.0.clock) && (r.1.Some? <==> lv.Some?)
  {
    if lv.Some? && now > lv.value.nextCheck then
      var p := lv.value;
      var outVolt := if c.psu.Some? then Some(c.psu.value.outVolt) else None;
      match Decide(p.relay, outVolt, p.threshold, p.threshRecovery)
      case Trip => (Delay(c, 200), Some(p.(relay := true, nextCheck := Add(now, 5000))))
      case Release => (c, Some(p.(relay := false, nextCheck := Add(now, 10000))))
      case Stay => (c, lv)
    else (c, lv)
  }

  /** The latch: a due check trips below the threshold and re-checks in 5 s, releases above the
      recovery threshold and re-checks in 10 s, and otherwise leaves latch and schedule alone;
      nothing but the protector and the clock changes. */
  lemma LowVoltageLatch(c: Core, lv: Lv, now: Millis)
    requires Inv(c) && now > lv.nextCheck && c.psu.Some?
    ensures var v := c.psu.value.outVolt;
            var r := LvBranch(c, Some(lv), now);
            var q := r.1.value;
      && q.threshold == lv.threshold && q.threshRecovery == lv.threshRecovery
      && (!lv.relay && v < lv.threshold ==> q.relay && q.nextCheck == Add(now, 5000) && r.0.clock == Add(c.clock, 200))
      && (lv.relay && v > lv.threshRecovery ==> !q.relay && q.nextCheck == Add(now, 10000) && r.0 == c)
      && (!(!lv.relay && v < lv.threshold) && !(lv.relay && v > lv.threshRecovery) ==> r == (c, Some(lv)))
  {
  }

  /** Lines 497-511: with more than two recent collapses the next auto-sweep is pulled in to a
      third of the interval after the last one; when due, a sweep starts from `mppt` or
      collapse mode (not from `capped`, `full_cv`, `off` or `error`), and the next is
      scheduled a full interval out. */
  function AutoSweepBranch(c: Core, now: Millis, io: Io): (r: Core)
    requires Inv(c)
    ensures Inv(r)
  {
    var c1 := PullInAutoSweep(c);
    if c1.cfg.autoSweep > 0 && now > c1.nextAutoSweep then
      var c2 := if c1.state == Mppt || c1.state == CollapseMode then StartSweep(c1, io) else c1;
      RescheduleAutoSweep(c2, now)
    else c1
  }

  /** Lines 497-498: with more than two recent collapses the next auto-sweep is pulled in
      to a third of the interval after the last one. */
  function PullInAutoSweep(c: Core): (r: Core)
    ensures r == c.(nextAutoSweep := r.nextAutoSweep)
    ensures |c.collapses| > 2 ==> r.nextAutoSweep == Add(c.lastAutoSweep, CDiv(c.cfg.autoSweep * 1000, 3))
    ensures |c.collapses| <= 2 ==> r == c
  {
    if |c.collapses| > 2 then c.(nextAutoSweep := Add(c.lastAutoSweep, CDiv(c.cfg.autoSweep * 1000, 3))) else c
  }

  /** Lines 509-510: the next auto-sweep falls one full interval after `now`, which is
      recorded as the last one. */
  function RescheduleAutoSweep(c: Core, now: Millis): (r: Core)
    ensures r == c.(nextAutoSweep := Add(now, c.cfg.autoSweep * 1000), lastAutoSweep := now)
  {
    c.(nextAutoSweep := Add(now, c.cfg.autoSweep * 1000), lastAutoSweep := now)
  }

  /** When an auto-sweep falls due, only `mppt` and collapse mode start a sweep, and the
      schedule moves one full interval past `now`. */
  lemma AutoSweepSchedule(c: Core, now: Millis, io: Io)
    requires Inv(c) && c.cfg.autoSweep > 0
    requires now > (if |c.collapses| > 2 then Add(c.lastAutoSweep, CDiv(c.cfg.autoSweep * 1000, 3)) else c.nextAutoSweep)
    ensures var r := AutoSweepBranch(c, now, io);
      && r.nextAutoSweep == Add(now, c.cfg.autoSweep * 1000)
      && r.lastAutoSweep == now
      && (r.state == Sweeping <==> c.state == Mppt || c.state == CollapseMode || c.state == Sweeping)
  {
  }

  /** One `loop()` tick at time `now`. */
  function LoopStep(c: Core, lv: Option<Lv>, now: Millis, io: TickIo): (r: (Core, Option<Lv>))
    requires Inv(c)
    ensures Inv(r.0)
  {
    var c0 := Tick(c, now);
    if io.otaPending then (Delay(c0, 100), lv)
    else Housekeeping(Regulate(c0, now, io), lv, now, io)
  }

  /** The model of `millis()` reads `now` at the top of `loop()`. */
  function Tick(c: Core, now: Millis): (r: Core)
    ensures r.clock == now && r == c.(clock := now)
  {
    c.(clock := now)
  }

  /** Lines 452-462: the measurement and adjustment branches. */
  function Regulate(c: Core, now: Millis, io: TickIo): (r: Core)
    requires Inv(c)
    ensures Inv(r)
  {
    AdjustBranch(MeasureBranch(c, now, io.measure), now, io.adjustMeasure, io.adjust)
  }

  /** Lines 464-511: the print, PSU, low-voltage and auto-sweep branches. */
  function Housekeeping(c: Core, lv: Option<Lv>, now: Millis, io: TickIo): (r: (Core, Option<Lv>))
    requires Inv(c)
    ensures Inv(r.0)
  {
    var h := LvBranch(PsuBranch(PrintBranch(c, now), now, io.psuUpdate), lv, now);
    (AutoSweepBranch(h.0, now, io.sweep), h.1)
  }

  /** Without a PSU, a tick whose measurement is due ends in `error`. */
  lemma NoPsuMeansError(c: Core, lv: Option<Lv>, now: Millis, io: TickIo)
    requires Inv(c) && c.psu.None? && !io.otaPending && now > c.nextVmeas
    ensures LoopStep(c, lv, now, io).0.state == Error
  {
    var c0 := Tick(c, now);
    var c1 := MeasureBranch(c0, now, io.measure);
    assert c1.state == Error;
    AdjustBranchKeepsState(c1, now, io.adjustMeasure, io.adjust);
    HousekeepingKeepsError(Regulate(c0, now, io), lv, now, io);
  }

  /** Once a PSU is installed, the next tick whose measurement is due leaves `error`,
      provided the PSU's last answer is recent enough for the transition table (within 11 s
      with the output enabled, not beyond 120 s with input present and the output disabled). */
  lemma PsuInstalledLeavesError(c: Core, p: Psu, lv: Option<Lv>, now: Millis, io: TickIo)
    requires Inv(c) && c.state == Error && !io.otaPending && now > c.nextVmeas
    requires p.outEn ==> SilentSecs(now, p) <= 11
    requires !p.outEn ==> !(io.measure.volt > 1.0 && SilentSecs(now, p) > 120)
    ensures MeasureBranch(Tick(InstallPsu(c, p), now), now, io.measure).state != Error
    ensures LoopStep(InstallPsu(c, p), lv, now, io).0.state != Error
  {
    var c0 := Tick(InstallPsu(c, p), now);
    var m := Measure(c0, io.measure).0;
    assert m.psu == Some(p) && m.state == Error && m.inVolt == io.measure.volt && m.clock == now;
    RecoversFromError(p, m.inVolt, m.cfg.currentCap, now);
    var c1 := MeasureBranch(c0, now, io.measure);
    AdjustBranchKeepsState(c1, now, io.adjustMeasure, io.adjust);
    HousekeepingNeverEntersError(Regulate(c0, now, io), lv, now, io);
  }

  /** The housekeeping branches never leave `error`: none of them evaluates the state, and
      an auto-sweep is not started from it. */
  lemma HousekeepingKeepsError(c: Core, lv: Option<Lv>, now: Millis, io: TickIo)
    requires Inv(c) && c.state == Error
    ensures Housekeeping(c, lv, now, io).0.state == Error
  {
  }

  /** Outside a sweep the adjustment branch never changes the operating state: `doAdjust`
      has no `setState`, and its measurement does not step a sweep. */
  lemma AdjustBranchKeepsState(c: Core, now: Millis, measure: Io, adjust: Io)
    requires Inv(c) && c.state != Sweeping
    ensures AdjustBranch(c, now, measure, adjust).state == c.state
  {
  }

  /** The print, PSU, low-voltage and auto-sweep branches never put the controller in `error`. */
  lemma HousekeepingNeverEntersError(c: Core, lv: Option<Lv>, now: Millis, io: TickIo)
    requires Inv(c) && c.state != Error
    ensures Housekeeping(c, lv, now, io).0.state != Error
  {
  }

  /** A tick whose measurement and adjustment are due reschedules them `measperiod` (twice that
      while sweeping) and the backed-off adjustment period after `now`. */
  lemma LoopReschedules(c: Core, now: Millis, io: TickIo)
    requires Inv(c) && !io.otaPending && now > c.nextVmeas
    requires now > MeasureBranch(c.(clock := now), now, io.measure).nextSolarAdjust
    ensures var c1 := MeasureBranch(c.(clock := now), now, io.measure);
            var r := AdjustBranch(c1, now, io.adjustMeasure, io.adjust);
      && c1.nextVmeas == Add(now, if c1.state == Sweeping then c.cfg.measperiod * 2 else c.cfg.measperiod)
      && r.nextSolarAdjust == Add(now, GetBackoff(r.backoffLevel, c.cfg.adjustPeriod))
      && r.nextVmeas == c1.nextVmeas
  {
  }
}
