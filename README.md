# FreeTheSun MPPT controller core, modelled in Dafny

This project models the control and decision engine of the FreeTheSun solar charge
controller, the `Solar` class of `lib/MPPTLib/solar.cpp`. The controller drives a
programmable power converter (the "PSU") to draw near-maximum power from a solar panel. It
does this with:

- a proportional correction with an asymmetric deadband;
- a periodic I-V sweep that looks for the maximum-power point by ramping the current until
  the panel voltage collapses;
- a blocking collapse-recovery poll;
- an adaptive back-off counter for failed adjustments;
- a five-minute collapse log;
- a low-voltage relay with hysteresis.

Everything runs from one periodic `loop()`, whose branches are each gated by a
"next due" timestamp on a wrapping 32-bit millisecond clock.

The model has two layers.

- `Engine` (engine.dfy) describes every firmware operation as a pure transition on a `Core`
  value.
  - `Core` holds the fields of `Solar` and the next-due timestamps.
  - The source keeps those timestamps as file globals (lines 30-32); here they are fields.
  - Core also holds the PSU record and a `clock` that stands for `millis()`.
  - The settings the remote configuration layer writes are grouped in one `cfg: Config`
    value, which the engine only reads.
  - The low-voltage protector is a separate object in the source, so its state is a separate
    `Lv` value that the loop-level transitions take and return beside the `Core`.
  - A single invariant `Inv` is kept by every operation: the back-off level stays in [0, 8],
    the sweep buffer is non-empty only while sweeping, and without a PSU the state is `off` or
    `error`.
  - The lemmas in `Engine` state what the operations promise.
- `Solar` (solar.dfy) is a class with the same fields, updated in place. Each method does
  what the firmware method does, step by step, except for the two corrections to
  `doSweepStep` listed under Findings. For example, the recovery poll is a `while`
  loop that reads and waits, and the sweep statistics are counting and maximum loops. Each
  method's `ensures` ties the new object state to the matching `Engine` transition of the old
  one, so every `Engine` lemma holds of the object.

Smaller modules hold the parts that work on plain values:

- `Time`: `uint32_t` `millis()` arithmetic, and C's truncating division.
- `Backoff`: `getBackoff` and the counter.
- `PowerSupply`: the PSU record and commands.
- `Collapse`: `hasCollapsed`.
- `CollapseLog`: the five-minute log.
- `Sweep`: samples, counting, the peak search and the closing decision.
- `Control`: `doUpdateState` and the proportional step.
- `LowVoltage`: the relay latch and the `LowVoltageProtect` class.
- `Mqtt`: `getPort` / `getEndpoint`.

Hardware I/O comes in as parameters.

- An `Io` value says whether the PSU accepts commands (`link`). It also carries what
  `doUpdate()` returned, what `readCurrent()` read, the input voltage `measureInvolt()`
  reads, and the sequence of readings the recovery poll takes.
- A `TickIo` carries one `Io` per `loop()` branch, and says whether an OTA update is pending.
- Time advances only through the firmware's own `delay()` calls and through the `now` that
  each `loop()` reads. Every other I/O call takes zero time.

Where the repository's design description and the code disagree, the model follows the code:

- `getBackoff` divides before it multiplies, so level 1 gives 1x the period, not 1.5x
  (`Backoff.Multipliers`).
- In the worked sweep example (9 W, 8 W, 6 W collapsed, 5 W collapsed), the peak search picks
  sample 0, not sample 1, because 9 W > 8 W. The tracked point is sample 0 either way
  (`Sweep.WorkedExample`).
- The "quick" re-adjust of line 377 fires for any error below 0.6 V outside the deadband
  while in `mppt`. That includes small positive errors (0.3 V to 0.6 V), which ramp up, not
  down. The description calls it ramping down.
- The description says `startSweep` restores only from collapse mode. The code also restores
  when `hasCollapsed()` holds (line 236).
- `setLVProtect` delays the first low-voltage check by 5 s (line 164).
- The sweep's cap exit takes the set-point from `sweepPoints_.back()`. The description calls
  that "the last sample"; see Findings for the case where the buffer has just been cleared.

## Model

| member | source | states |
|---|---|---|
| Time.ElapsedAfterAdd | lib/MPPTLib/solar.cpp:357 | the unsigned age `Add(t, d) - t` of a deadline `d` ms after `t` is `d`, even across the 2^32 rollover |
| Time.CDiv | lib/MPPTLib/solar.cpp:281 | C's `/` on `int`: equals Euclidean division for non-negative operands; for a positive divisor the quotient rounds toward zero, lying within one divisor below a non-negative dividend and within one divisor above a negative one |
| Backoff.Multiplier | lib/MPPTLib/solar.cpp:579-582 | `getBackoff(period)` is the period times a level-dependent multiplier that is at least 1, for every period |
| Backoff.Multipliers | lib/MPPTLib/solar.cpp:579-582 | levels 0 and 1 leave the period unchanged, level 2 triples it, level 8 multiplies it by 33 |
| Backoff.MultiplierMonotone | lib/MPPTLib/solar.cpp:579-582 | the multiplier never decreases as the level rises |
| Backoff.BackoffMonotone | lib/MPPTLib/solar.cpp:579-582 | for a non-negative period the back-off interval never decreases as the level rises |
| Backoff.BackoffBounded | lib/MPPTLib/solar.cpp:579-582 | over the counter's range the interval lies between 1 and 33 periods |
| Backoff.NextLevelInRange | lib/MPPTLib/solar.cpp:436-438 | the counter stays in [0, 8]; it rises by one (ceiling 8) after a back-off and falls by one (floor 0) after a success |
| PowerSupply.SetCurrent | lib/MPPTLib/solar.cpp:221 | only the current limit can change, and it becomes the requested value exactly when the device accepts the command |
| PowerSupply.EnableOutput | lib/MPPTLib/solar.cpp:429 | only the output flag can change, and it becomes the requested value exactly when the device accepts the command |
| PowerSupply.ReadCurrent | lib/MPPTLib/solar.cpp:225 | only the output current can change: it becomes a successful reading, and a failed read changes nothing |
| PowerSupply.Refresh | lib/MPPTLib/solar.cpp:329 | a failed `doUpdate()` keeps the record; the device family never changes |
| Collapse.HasCollapsed | lib/MPPTLib/solar.cpp:310-323 | false without a PSU or with the output disabled, whatever the voltages; true only with the device's collapse flag set; for non-Drok devices exactly "enabled and flag set" |
| Collapse.PercentCloseIsQuotient | lib/MPPTLib/solar.cpp:315-318 | the denominator-free form of the secondary test equals `(in - out) / out < 0.05` wherever `out != 0` |
| Collapse.DrokCollapseIsSimpleMatch | lib/MPPTLib/solar.cpp:314-318 | for a Drok device with non-negative output voltage, a collapse is exactly "enabled, flag set, input below 1.11 x output" |
| Collapse.SecondaryMethodNeedsNegativeOutput | lib/MPPTLib/solar.cpp:318-321 | for a Drok device the secondary method decides a collapse only when the output voltage is negative |
| CollapseLog.Record | lib/MPPTLib/solar.cpp:416 | a collapse is appended at the back; the older entries keep their order |
| CollapseLog.PruneRemovesStaleFront | lib/MPPTLib/solar.cpp:441-444 | one pass removes at most the front entry, exactly when it is older than five minutes; the rest keep their order |
| CollapseLog.PruneBoundary | lib/MPPTLib/solar.cpp:441 | entries exactly 300000 ms and 299999 ms old are kept; an entry 300001 ms old is removed |
| Control.TransitionTable | lib/MPPTLib/solar.cpp:387-403 | each combination of PSU presence, mode, output flag, silence, current against the cap and CV flag selects exactly one state, row by row (both directions of each row) |
| Control.NextStateRange | lib/MPPTLib/solar.cpp:387-403 | the state machine never enters `sweeping` or collapse mode on its own; an enabled output never lands in `off`; a disabled one lands in `off` or `error` |
| Control.RecoversFromError | lib/MPPTLib/solar.cpp:390-400 | once the PSU's silence is within the table's limits, one evaluation leaves `error` |
| Control.CappedIsStrict | lib/MPPTLib/solar.cpp:393 | output current at exactly 95 % of the cap is not `capped` |
| Control.DeadbandHolds | lib/MPPTLib/solar.cpp:376 | with an error between -0.2 V and +0.3 V the requested current is the present limit |
| Control.CorrectionBounds | lib/MPPTLib/solar.cpp:375-381 | outside the deadband the request never exceeds the cap, rises at most `ramplimit`, and falls at most `2*ramplimit` unless the cap cuts deeper; unclamped, it is the proportional step |
| Control.CorrectionDirection | lib/MPPTLib/solar.cpp:374-381 | with a non-negative gain, input above the set-point never lowers the request below min(limit, cap), and input below it never raises it |
| Sweep.CollapsedCount | lib/MPPTLib/solar.cpp:255-259 | the collapsed count is at most the buffer length, and equals it exactly when every sample is collapsed |
| Sweep.CountPoints | lib/MPPTLib/solar.cpp:255-259 | the counting loop returns the collapsed count and the rest as the uncollapsed count |
| Sweep.MaxIndex | lib/MPPTLib/solar.cpp:268-275 | the search result is a peak: sample 0 or an uncollapsed sample, at least as powerful as every uncollapsed sample, and strictly more powerful than every earlier candidate (the earliest tie wins) |
| Sweep.FindMaxIndex | lib/MPPTLib/solar.cpp:268-275 | the maximum loop returns the peak index |
| Sweep.PeakIsUnique | lib/MPPTLib/solar.cpp:271-275 | the peak property determines the index uniquely |
| Sweep.RestoreFactor | lib/MPPTLib/solar.cpp:287 | the restore factor `0.98 - 0.04*min(collapses, 8)` lies in [0.66, 0.98] |
| Sweep.RestoreFactorNonIncreasing | lib/MPPTLib/solar.cpp:287 | more recent collapses never give a larger restore factor |
| Sweep.Conclude | lib/MPPTLib/solar.cpp:262-289 | a decision is made exactly when the newest sample is collapsed and at least two are; it is the abort exactly when every sample is collapsed |
| Sweep.DecideSweep | lib/MPPTLib/solar.cpp:255-289 | counting, then the peak search as the code runs them, returns the closing decision `Conclude` |
| Sweep.RunCollapsedMeansCollapsePointWins | lib/MPPTLib/solar.cpp:277-282 | running collapsed means the set-point is the collapse point's input, some sample was uncollapsed, and neither sample 0 nor any uncollapsed sample reaches the collapse point's power |
| Sweep.CollapsePointWinsMeansRunCollapsed | lib/MPPTLib/solar.cpp:277-282 | conversely, when the collapse point beats sample 0 and every uncollapsed sample, the decision is collapse mode and never tracking |
| Sweep.TrackBacksOffFromPeak | lib/MPPTLib/solar.cpp:283-288 | tracking picks the peak backed off by two samples (clamped at 0), takes that sample's input as the set-point and its scaled current as the restore current, and the peak is at least as powerful as the collapse point |
| Sweep.MatchingSampleMeansTrack | lib/MPPTLib/solar.cpp:277-288 | an uncollapsed sample at least as powerful as the collapse point makes a concluded sweep track |
| Sweep.WorkedExample | lib/MPPTLib/solar.cpp:262-288 | for 9 W, 8 W, 6 W collapsed and 5 W collapsed: pending after three samples; then the peak is sample 0, the back-off clamps at 0, and the sweep tracks 20 V |
| Sweep.CollapsedFirstSampleCanWin | lib/MPPTLib/solar.cpp:268-275 | the search starts at sample 0 even when it is collapsed, so a collapsed first sample can be the tracked point |
| Sweep.StaleSamplesSteerNextSweep | lib/MPPTLib/solar.cpp:254 | as written, a sample left in the buffer by an earlier exit makes the next sweep track its stale 30 V instead of the 28 V its own samples give |
| LowVoltage.DefaultRecovery | lib/MPPTLib/solar.cpp:634 | the default recovery threshold (1.08 x) lies above a positive trigger threshold |
| LowVoltage.Hysteresis | lib/MPPTLib/solar.cpp:484-494 | it trips exactly when untriggered and below the threshold, and releases exactly when triggered and above recovery; a voltage inside the band never changes the latch |
| LowVoltage.Scenario | lib/MPPTLib/solar.cpp:484-494 | with 12.0 V / 12.96 V: 13.0 V stays released, 11.9 V trips, 12.5 V stays tripped, 13.0 V releases |
| LowVoltage.LowVoltageProtect.constructor | lib/MPPTLib/solar.cpp:629-635 | the protector takes the trigger threshold, and the recovery threshold or 1.08 times the trigger; the relay starts released |
| LowVoltage.LowVoltageProtect.Trigger | lib/MPPTLib/solar.cpp:639-642 | the relay's latched state becomes the requested one |
| Mqtt.IndexOf | lib/MPPTLib/solar.cpp:593 | -1 exactly when the character is absent; otherwise the index of its first occurrence |
| Mqtt.SplitAddress | lib/MPPTLib/solar.cpp:592-599 | the endpoint never holds ':'; without ':' the endpoint is the whole address and the port is 1883; with one, endpoint + ":" + rest rebuilds the address and the port is `toInt(rest)` |
| Mqtt.AddressRoundTrip | lib/MPPTLib/solar.cpp:592-599 | `host:port` for a host without ':' splits back into that host and that port |
| Engine.Initial | lib/MPPTLib/solar.cpp:30-32 | a new controller is `off` with no PSU, an empty buffer and log, and satisfies the invariant |
| Engine.InstallPsu | lib/MPPTLib/solar.cpp:173-175 | the device becomes the PSU and the state and invariant are kept; a 200 ms measuring period becomes 500 ms for non-Drok families, otherwise it is kept |
| Engine.InstallLv | lib/MPPTLib/solar.cpp:164 | the protector's first check falls exactly 5 s after now (across a rollover too); thresholds and latch are kept |
| Engine.SetStateMarksChanges | lib/MPPTLib/solar.cpp:584-590 | `setState` marks "state" dirty exactly when the state changes, touches nothing else, and is idempotent |
| Engine.MarkDirty | lib/MPPTLib/solar.cpp:226 | the keys join the dirty set and nothing else changes |
| Engine.ApplyAdjustment | lib/MPPTLib/solar.cpp:219-229 | only the PSU, the clock and the dirty set can change; of the PSU only the limit and the measured current change, and the limit becomes the request exactly when the device accepts it |
| Engine.ApplyAdjustmentIdempotent | lib/MPPTLib/solar.cpp:220 | once the PSU has accepted a request, repeating it sends no command and changes nothing; a request equal to the limit is a no-op |
| Engine.PollStop | lib/MPPTLib/solar.cpp:357-358 | the number of 25 ms waits lies between the start and 320 (8 s) |
| Engine.PollStopIsFirstReached | lib/MPPTLib/solar.cpp:357-358 | the poll stops at `n` exactly when every earlier reading is below the threshold and reading `n` is not (or the window is used up) |
| Engine.Poll | lib/MPPTLib/solar.cpp:356-358 | the poll changes only the clock, the input voltage and the dirty set, and marks "involt" dirty |
| Engine.PollOnce | lib/MPPTLib/solar.cpp:357-358 | one pass reads the voltage and marks it dirty; the clock advances 25 ms exactly when the reading is below the threshold |
| Engine.Calibrate | lib/MPPTLib/solar.cpp:360-364 | a calibrated threshold is kept; an uncalibrated one (>= 1000) becomes 99.2 % of the voltage just read and is marked dirty; nothing else changes |
| Engine.Restore | lib/MPPTLib/solar.cpp:354-367 | recovery changes only the PSU, the clock, the input voltage, the threshold and the dirty set; of the PSU only the limit, which ends at the restore current when the device accepts |
| Engine.RestoreBounded | lib/MPPTLib/solar.cpp:354-367 | recovery blocks at most 8 s; it ends early exactly when some reading reaches the threshold, every earlier reading being below it; an accepting PSU ends at the restore current; a calibrated threshold is unchanged |
| Engine.RestoreCalibrates | lib/MPPTLib/solar.cpp:359-364 | at start-up, with no reading reaching the sentinel, the poll takes the full 8 s and the threshold becomes 99.2 % of the next reading, now calibrated and dirty |
| Engine.StartSweep | lib/MPPTLib/solar.cpp:231-244 | refused in `error` (nothing changes); otherwise ends in `sweeping` with the buffer untouched, keeping the invariant; an accepting PSU ends with its output on and its limit at 90 % of the filtered current, or at 75 % when in collapse mode or collapsed; a refusing PSU is left as it was; no time passes unless collapsed, and the sweep's start time is the clock at the end |
| Engine.EaseOff | lib/MPPTLib/solar.cpp:234-239 | of the PSU only the limit changes: to 90 % of the filtered current, or to 75 % after the recovery poll when in collapse mode or collapsed, when the device accepts; without a collapse no time passes |
| Engine.EnterSweep | lib/MPPTLib/solar.cpp:240-243 | the state becomes `sweeping` and the start time is recorded; a disabled output is switched on when the device accepts, and nothing else of the PSU changes |
| Engine.Steer | lib/MPPTLib/solar.cpp:277-289 | running collapsed ends in collapse mode, tracking in `mppt`; settings, measuring schedule and back-off are kept |
| Engine.RunAtCap | lib/MPPTLib/solar.cpp:280-281 | an accepting PSU ends at the cap, or at 10 A when no cap is set; only the PSU and the next auto-sweep time change |
| Engine.Publish | lib/MPPTLib/solar.cpp:290-292 | the set-point is published and marked dirty, the next adjustment falls exactly 1 s later, and the buffer is emptied |
| Engine.Settle | lib/MPPTLib/solar.cpp:277-292 | a sweep that finds headroom ends with an empty buffer, the decision's set-point (dirty), and collapse mode or `mppt` as decided |
| Engine.ExitSweep | lib/MPPTLib/solar.cpp:249 | leaving `sweeping` sets the new state and empties the buffer (the corrected behaviour) |
| Engine.Finish | lib/MPPTLib/solar.cpp:296-307 | at or above the cap: `mppt`, the newest sample's input as set-point, an empty buffer and the limit at the cap when accepted; below the cap in CV mode: `full_cv` with an empty buffer and the PSU untouched; otherwise the sweep goes on with the limit raised by 1 mA per input volt, at most to 1 mA above the cap, when accepted |
| Engine.StartSweepRecovers | lib/MPPTLib/solar.cpp:236-243 | starting from collapse mode or a collapse, the sweep first blocks for the recovery poll (at most 8 s, up to the first reading that reaches the threshold) and an accepting PSU then sweeps up from 75 % of the filtered current with its output on |
| Engine.SweepStep | lib/MPPTLib/solar.cpp:246-308 | a sweep step keeps the invariant (the buffer is non-empty only while sweeping), the settings and the measuring schedule |
| Engine.SweepSample | lib/MPPTLib/solar.cpp:253-254 | recording the sample and deciding keeps the invariant |
| Engine.SweepDecision | lib/MPPTLib/solar.cpp:255-307 | the decision on a buffer with the newest sample at its back keeps the invariant |
| Engine.SweepStepAppends | lib/MPPTLib/solar.cpp:254 | a step that neither concludes nor exits keeps sweeping, with the new sample appended at the back |
| Engine.SweepStepConcludes | lib/MPPTLib/solar.cpp:262-301 | a concluding step empties the buffer and leaves `sweeping`; the abort returns to `mppt` with the set-point kept; otherwise the set-point is the decision's or the newest sample's input |
| Engine.CollapseDecisionMeetsCapExit | lib/MPPTLib/solar.cpp:277-301 | with a positive cap and an accepting PSU, running collapsed is overridden on the same step by the cap exit, ending in `mppt` at the cap |
| Engine.CapExitAfterConclusionExample | lib/MPPTLib/solar.cpp:292-298 | a concrete step where the decision clears the buffer and the cap exit then reads it (Finding 1); the model reads the newest sample instead |
| Engine.Measure | lib/MPPTLib/solar.cpp:369-385 | measuring keeps the invariant, the settings and the measuring schedule |
| Engine.Proportional | lib/MPPTLib/solar.cpp:373-384 | only the adjustment time can change, and only to now |
| Engine.MeasureOutsideSweep | lib/MPPTLib/solar.cpp:369-385 | outside a sweep only the input voltage (marked dirty) and possibly the adjustment time (to now) change; the request is the limit inside the deadband, at most the cap outside it, and the limit (or 0) when corrections are off |
| Engine.UpdateState | lib/MPPTLib/solar.cpp:387-403 | the state evaluation keeps the invariant (no PSU gives `error`) |
| Engine.TryAdjust | lib/MPPTLib/solar.cpp:407-435 | the `try` block never changes the state, the back-off level, the buffer or whether a PSU is present |
| Engine.Prepare | lib/MPPTLib/solar.cpp:415-431 | the collapse or start-up step keeps the state, level and buffer; a refusal changes nothing |
| Engine.RecordCollapse | lib/MPPTLib/solar.cpp:416-417 | the collapse is appended to the log with the current time and "collapses" is marked dirty; nothing else changes |
| Engine.Correct | lib/MPPTLib/solar.cpp:414-434 | with corrections enabled, keeps the state, level, buffer and PSU presence |
| Engine.Adjust | lib/MPPTLib/solar.cpp:405-445 | `doAdjust` keeps the invariant, the settings and the measuring schedule |
| Engine.StepBackoff | lib/MPPTLib/solar.cpp:436-438 | only the level changes, and it stays in [0, 8] |
| Engine.PruneOnce | lib/MPPTLib/solar.cpp:441-444 | the log is pruned once; "collapses" becomes dirty exactly when an entry was dropped (or it already was dirty) |
| Engine.AdjustBackoff | lib/MPPTLib/solar.cpp:436-438 | the level moves up exactly when the `try` block signalled back-off, and down otherwise |
| Engine.AdjustCollapseLog | lib/MPPTLib/solar.cpp:416-444 | an entry stamped with the start time is appended exactly on a collapse event, then one pruning pass runs at the end time; nothing else touches the log |
| Engine.EmergencyShutdown | lib/MPPTLib/solar.cpp:408-413 | in `error` with the PSU heard within 30 s, the adjustment signals back-off and an accepting PSU ends disabled at 0 A |
| Engine.EnableOnlyWhenSafe | lib/MPPTLib/solar.cpp:420-430 | the output is switched on only outside `error` and `sweeping` with a set-point, when the input is at or above the output, the output is at least 0.1 V, and the battery is at most the voltage limit and not between 1 V and 60 % of it; the outcome is then Ok |
| Engine.UnsafeStartupBacksOff | lib/MPPTLib/solar.cpp:420-430 | conversely, a dark panel (input below output, or output below 0.1 V) or a mismatched battery ends the attempt with that reason and no change, and the level rises; a safe start-up is Ok and switches the output on when accepted |
| Engine.ShutdownWindowCloses | lib/MPPTLib/solar.cpp:408-413 | in `error` with no PSU, or with the PSU silent for 30 s or more, the adjustment sends nothing, signals no back-off, and the level falls |
| Engine.MeasureBranch | lib/MPPTLib/solar.cpp:452-456 | the measurement branch keeps the invariant |
| Engine.AdjustBranch | lib/MPPTLib/solar.cpp:458-462 | the adjustment branch keeps the invariant |
| Engine.AdjustBranchKeepsState | lib/MPPTLib/solar.cpp:458-462 | outside a sweep the adjustment branch never changes the operating state |
| Engine.PrintBranch | lib/MPPTLib/solar.cpp:464-467 | the print schedule keeps the invariant |
| Engine.PsuBranch | lib/MPPTLib/solar.cpp:469-481 | the PSU refresh branch keeps the invariant |
| Engine.PsuRefreshBounded | lib/MPPTLib/solar.cpp:480 | a due refresh waits between 5 s and 100 s; exactly 5 s at levels 0 and 1; exactly 100 s from level 7 on |
| Engine.LvBranch | lib/MPPTLib/solar.cpp:483-495 | the low-voltage branch changes only the clock of the core, keeps the invariant and never installs or removes a protector |
| Engine.LowVoltageLatch | lib/MPPTLib/solar.cpp:483-495 | a due check trips below the threshold (after 200 ms, re-check in 5 s), releases above recovery (re-check in 10 s), and otherwise changes nothing |
| Engine.PullInAutoSweep | lib/MPPTLib/solar.cpp:497-498 | with more than two recent collapses the next auto-sweep is a third of the interval after the last one; otherwise nothing changes |
| Engine.RescheduleAutoSweep | lib/MPPTLib/solar.cpp:509-510 | the next auto-sweep is one interval after now, and now becomes the last one; nothing else changes |
| Engine.AutoSweepBranch | lib/MPPTLib/solar.cpp:497-511 | the auto-sweep branch keeps the invariant |
| Engine.AutoSweepSchedule | lib/MPPTLib/solar.cpp:500-511 | a due auto-sweep is scheduled one interval past now; the controller ends in `sweeping` exactly when it was in `mppt`, collapse mode or already sweeping |
| Engine.Tick | lib/MPPTLib/solar.cpp:448 | the clock becomes the tick's `now` and nothing else changes |
| Engine.Regulate | lib/MPPTLib/solar.cpp:452-462 | the measurement and adjustment branches keep the invariant |
| Engine.Housekeeping | lib/MPPTLib/solar.cpp:464-511 | the print, PSU, low-voltage and auto-sweep branches keep the invariant |
| Engine.HousekeepingNeverEntersError | lib/MPPTLib/solar.cpp:464-511 | those branches never put the controller in `error` |
| Engine.HousekeepingKeepsError | lib/MPPTLib/solar.cpp:464-511 | nor do they take it out of `error` |
| Engine.LoopStep | lib/MPPTLib/solar.cpp:447-512 | one `loop()` keeps the invariant |
| Engine.NoPsuMeansError | lib/MPPTLib/solar.cpp:452-456 | without a PSU, a tick whose measurement is due ends in `error` |
| Engine.PsuInstalledLeavesError | lib/MPPTLib/solar.cpp:387-403 | after a PSU is installed, the next tick whose measurement is due leaves `error`, when the PSU's last answer is recent enough for the table |
| Engine.LoopReschedules | lib/MPPTLib/solar.cpp:452-462 | due measurement and adjustment are rescheduled `measperiod` (twice that while sweeping) and the backed-off adjustment period after now |
| Solar.Solar.constructor | lib/MPPTLib/solar.cpp:18-32 | the object starts in `Engine.Initial` with no protector |
| Solar.Solar.InstallPsu | lib/MPPTLib/solar.cpp:169-181 | `setPSU` with an accepted device updates the object as `Engine.InstallPsu` |
| Solar.Solar.SetLvProtect | lib/MPPTLib/solar.cpp:160-167 | `setLVProtect` installs the protector with its first check 5 s out (`Engine.InstallLv`) and leaves the controller state alone |
| Solar.Solar.SetState | lib/MPPTLib/solar.cpp:584-590 | in place, as `Engine.SetState` |
| Solar.Solar.Delay | lib/MPPTLib/solar.cpp:358 | `delay(ms)` advances the clock, as `Engine.Delay` |
| Solar.Solar.MeasureInvolt | lib/MPPTLib/solar.cpp:339-352 | stores and returns the reading and marks it dirty, as `Engine.MeasureInvolt` |
| Solar.Solar.UpdatePsu | lib/MPPTLib/solar.cpp:327-337 | returns whether the refresh succeeded, and updates the object as `Engine.UpdatePsu` |
| Solar.Solar.MarkDirty | lib/MPPTLib/solar.cpp:226 | in place, as `Engine.MarkDirty` |
| Solar.Solar.ApplyAdjustment | lib/MPPTLib/solar.cpp:219-229 | in place, as `Engine.ApplyAdjustment` |
| Solar.Solar.PollInput | lib/MPPTLib/solar.cpp:356-358 | the read-and-wait loop returns the number of waits `Engine.PollStop` predicts and leaves the object as `Engine.Poll` (so the properties of `Engine.RestoreBounded` apply) |
| Solar.Solar.PollOnce | lib/MPPTLib/solar.cpp:357-358 | one read-and-wait, reporting whether the reading was below the threshold, as `Engine.PollOnce` |
| Solar.Solar.RestoreFromCollapse | lib/MPPTLib/solar.cpp:354-367 | in place, as `Engine.Restore` |
| Solar.Solar.Calibrate | lib/MPPTLib/solar.cpp:360-364 | in place, as `Engine.Calibrate` |
| Solar.Solar.StartSweep | lib/MPPTLib/solar.cpp:231-244 | in place, as `Engine.StartSweep`, keeping `Valid` |
| Solar.Solar.EaseOff | lib/MPPTLib/solar.cpp:234-239 | in place, as `Engine.EaseOff` |
| Solar.Solar.EnterSweep | lib/MPPTLib/solar.cpp:240-243 | in place, as `Engine.EnterSweep` |
| Solar.Solar.ApplyConclusion | lib/MPPTLib/solar.cpp:277-292 | in place, as `Engine.Settle` |
| Solar.Solar.Steer | lib/MPPTLib/solar.cpp:277-289 | in place, as `Engine.Steer` |
| Solar.Solar.RunAtCap | lib/MPPTLib/solar.cpp:280-281 | in place, as `Engine.RunAtCap` |
| Solar.Solar.Publish | lib/MPPTLib/solar.cpp:290-292 | in place, as `Engine.Publish` |
| Solar.Solar.ExitSweep | lib/MPPTLib/solar.cpp:249 | in place, as `Engine.ExitSweep` |
| Solar.Solar.FinishSweep | lib/MPPTLib/solar.cpp:296-307 | in place, as `Engine.Finish` |
| Solar.Solar.SweepDecision | lib/MPPTLib/solar.cpp:255-307 | counting and peak loops, then the decision, in place, as `Engine.SweepDecision` |
| Solar.Solar.DoSweepStep | lib/MPPTLib/solar.cpp:246-308 | `doSweepStep()` in place, as `Engine.SweepStep`, keeping `Valid` |
| Solar.Solar.DoMeasure | lib/MPPTLib/solar.cpp:369-385 | returns the desired current and updates the object as `Engine.Measure` |
| Solar.Solar.Proportional | lib/MPPTLib/solar.cpp:373-384 | returns the request and updates the adjustment time as `Engine.Proportional` |
| Solar.Solar.DoUpdateState | lib/MPPTLib/solar.cpp:387-403 | in place, as `Engine.UpdateState`, keeping `Valid` |
| Solar.Solar.TryAdjust | lib/MPPTLib/solar.cpp:407-435 | returns the tagged outcome and updates the object as `Engine.TryAdjust` |
| Solar.Solar.Prepare | lib/MPPTLib/solar.cpp:415-431 | returns the outcome and updates the object as `Engine.Prepare` |
| Solar.Solar.RecordCollapse | lib/MPPTLib/solar.cpp:416-417 | in place, as `Engine.RecordCollapse` |
| Solar.Solar.ApplyIfEnabled | lib/MPPTLib/solar.cpp:432-434 | in place, as `Engine.ApplyIfEnabled` |
| Solar.Solar.Correct | lib/MPPTLib/solar.cpp:414-434 | returns the outcome and updates the object as `Engine.Correct` |
| Solar.Solar.DoAdjust | lib/MPPTLib/solar.cpp:405-445 | `doAdjust(desired)` in place, as `Engine.Adjust`, keeping `Valid` |
| Solar.Solar.StepBackoff | lib/MPPTLib/solar.cpp:436-438 | in place, as `Engine.StepBackoff` |
| Solar.Solar.PruneOnce | lib/MPPTLib/solar.cpp:441-444 | in place, as `Engine.PruneOnce` |
| Solar.Solar.CheckLowVoltage | lib/MPPTLib/solar.cpp:483-495 | updates the object and its protector as `Engine.LvBranch` |
| Solar.Solar.MeasureBranch | lib/MPPTLib/solar.cpp:452-456 | in place, as `Engine.MeasureBranch` |
| Solar.Solar.AdjustBranch | lib/MPPTLib/solar.cpp:458-462 | in place, as `Engine.AdjustBranch` |
| Solar.Solar.Regulate | lib/MPPTLib/solar.cpp:452-462 | in place, as `Engine.Regulate` |
| Solar.Solar.PsuBranch | lib/MPPTLib/solar.cpp:469-481 | in place, as `Engine.PsuBranch` |
| Solar.Solar.PullInAutoSweep | lib/MPPTLib/solar.cpp:497-498 | in place, as `Engine.PullInAutoSweep` |
| Solar.Solar.RescheduleAutoSweep | lib/MPPTLib/solar.cpp:509-510 | in place, as `Engine.RescheduleAutoSweep` |
| Solar.Solar.AutoSweepBranch | lib/MPPTLib/solar.cpp:497-511 | in place, as `Engine.AutoSweepBranch` |
| Solar.Solar.Housekeeping | lib/MPPTLib/solar.cpp:464-511 | updates the object and its protector as `Engine.Housekeeping`; the protector object stays the same |
| Solar.Solar.Tick | lib/MPPTLib/solar.cpp:448 | in place, as `Engine.Tick` |
| Solar.Solar.Loop | lib/MPPTLib/solar.cpp:447-512 | one `loop()` updates the object and its protector as `Engine.LoopStep`, keeping `Valid` |

## Left out

- Logging, `printStatus`, the MQTT client, the publish task, the web server and OTA updates
  are left out: they are I/O, and they publish state the core only marks (`dirty`).
- `setup()` is left out; it is start-up wiring of preferences and drivers.
- The real time these operations take is left out. Only the firmware's own `delay()` calls
  and each `loop()`'s `now` move the clock.
- `measureInvolt()`'s source selection is left out: the PSU reading or the ADC fallback with
  `vadjust_`, and the extra `updatePSU()` when the PSU's last answer is older than 600 ms
  (lines 340-349). The reading comes in as a parameter.
- `updatePSU()` marking "wh" dirty (lines 331-332) is left out; energy counting is not part of
  the model.
- The PSU branch's `psu_->begin()` after a failed refresh and the `ESP.restart()` after 5 min
  of silence (lines 471-479) are left out: they are driver calls and a reboot.
- `heap_caps_check_integrity_all` is left out; it is a debugging aid.
- Floating-point rounding is left out: `float`/`double` arithmetic is modelled on exact reals.
- `Engine.PullInAutoSweep` computes `autoSweep_ / 3.0 * 1000` with C's truncating integer
  division (`CDiv(autoSweep * 1000, 3)`), which matches the double expression truncated to
  `uint32_t` except when rounding or an out-of-range conversion intervenes.
- Integer overflow in `getBackoff` and in `autoSweep_ * 1000` is left out: these are `int`
  products on small configured values.
- The device drivers (powerSupplies.h) are not part of this model. A command's effect is
  assumed to be the field it sets when `link` holds. That granularity is per operation: all
  commands of one call are accepted, or all are refused.
- `setPSU` with a string the factory rejects (a null PSU), and the `ckPSUs()` text replies,
  are left out. `Solar.Solar.InstallPsu` installs only an accepted device.
- `LowVoltageProtect` configuration parsing, pin numbers, inversion and the ADC2 check
  (lines 623-628) are left out. The constructor takes the thresholds as values.
- `startSweep` dereferences the PSU at line 234 before testing it. `Engine.StartSweep`
  requires a PSU unless the state is `error`. The invariant does not guarantee this, since
  it allows `off` without a PSU; the precondition holds at the auto-sweep call (line 507),
  which line 505 guards by `mppt` or collapse mode, states that have a PSU.
- The remote `sweep` command (line 85) is left out. It calls `startSweep()` in any state, so
  in `off` without a PSU the firmware dereferences a null PSU at line 234.
- LowVoltage.LowVoltageProtect.constructor: the relay latch is assumed to start released. The
  constructor never drives the pin and `isTriggered()` (lines 644-646) reads the pin back, so
  the start-up level of the pin is not modelled.
- Engine.SweepStepConcludes: states only that the concluded set-point is the decision's or
  the newest sample's input, because the cap exit can override the decision on the same
  step (see `Engine.CollapseDecisionMeetsCapExit`).
- An MQTT port too large for `long` in `toInt()` (`atol` overflow) is left out: `Mqtt.ToInt`
  reads the digits as an unbounded number.
- The dead assignment `setpoint_ = inVolt_ - (pgain_ * 4)` at line 297 is left out: line 298
  overwrites it at once.
- Setting `offThreshold_`, the gains and the periods remotely is left out. The settings are
  read through `cfg`, which no core operation writes except `setPSU`'s measuring period.

## Findings

| source | as written | input that shows it | evidently intended | confidence | as-written member | corrected member |
|---|---|---|---|---|---|---|
| lib/MPPTLib/solar.cpp:292-298 | The concluding block clears `sweepPoints_` at line 292. When the limit then meets the cap, line 298 reads `sweepPoints_.back()` from the now empty vector, which is undefined behaviour. | Buffer (10 V, 0.5 A, 20 V in) and (8 V, 0.5 A, 15 V in, collapsed); next sample 8 V, 0.5 A at 9 V in, collapsed; limit already at the 2 A cap and the PSU refusing commands. The sweep decides to track and clears the buffer, and then the cap exit reads it. | The cap exit takes the set-point from the sample recorded on this step. | not executed | Engine.CapExitAfterConclusionExample | Engine.SweepStep |
| lib/MPPTLib/solar.cpp:249 | The sweep buffer is cleared only by the concluding block. It is left in place when the output is lost (line 249), on the no-headroom abort (lines 263-266), at the cap (lines 296-301) and in constant-voltage mode (lines 302-304). So the next sweep appends to stale samples. | A stale (20 V, 1 A, 30 V in) sample, then own samples (10 V, 1 A, 28 V in), (9 V, 1 A collapsed) and (8 V, 1 A collapsed). The next sweep tracks 30 V, where its own samples give 28 V. | The buffer is emptied on every exit from `sweeping`, so it is non-empty only while sweeping. | not executed | Sweep.StaleSamplesSteerNextSweep | Engine.ExitSweep |
