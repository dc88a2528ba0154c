# Kiln controller core, modelled in Dafny

This project models the control core of the kiln controller in `lib/oven.py`:

- **Firing schedules.** A profile is a list of (time, temperature) points. The code looks up the target temperature at a schedule time, and finds the earliest schedule time at which the schedule reaches a temperature. The warmup skip uses that search.
- **Temperature sensing.** Readings are corrected by an optional thermocouple correction table. The sampler keeps a moving window of good readings. It publishes a trimmed mean of them, counts bad readings, and reports the share of bad readings per error window.
- **PID controller.** Outside the control window it switches fully on or off. Inside, it sums the P, I and D terms, clamps the sum to [-100, 100] and scales it to a duty cycle in [0, 1].
- **Oven state machine.** An oven is IDLE or RUNNING. It can start a schedule, abort, reset, catch up or skip ahead, advance the schedule clock and track energy cost. It stops on emergencies and at the end of the schedule, and restarts automatically after a power loss. One pass of the oven loop drives the heater for one time step.

Modules:

| file | module | contents |
|---|---|---|
| `settings.dfy` | `Wrappers`, `Settings` | `Option`; the configuration record and the correction table rows |
| `sorting.dfy` | `Sorting` | insertion sort standing for Python's `sorted`, proved to be a sorted permutation |
| `arith.dfy` | `RealArith` | small facts about real products and quotients |
| `schedule.dfy` | `Schedule` | `Profile`: duration, surrounding points, target lookup, search for a temperature |
| `sensor.dfy` | `Sensor` | thermocouple offset, trimmed mean, and the sampling loop as the class `TempSampler` |
| `pid.dfy` | `PidControl` | the controller step, and the class `Pid` whose fields change on each call |
| `oven.dfy` | `Firing` | the class `Oven`, with one method per operation and `Tick` for one pass of the loop |

Temperatures, times and money are `real`. Clock readings are passed in as `now`, in seconds. The sensor the oven reads is the `SensorState` value the sampling thread last published. The configuration is an immutable `Config`.

## Model

| member | source | states |
|---|---|---|
| Sorting.Sort | lib/oven.py:225 | `sorted` returns a permutation of its input of the same length |
| Sorting.SortSorted | lib/oven.py:225 | under a total preorder, the sorted list is in order |
| Schedule.NewProfile | lib/oven.py:713-716 | a new profile keeps its name and holds the given points, sorted, in time order |
| Schedule.LexSortedIsTimeSorted | lib/oven.py:716 | sorting the points as [time, temperature] pairs orders them by time |
| Schedule.MaxTime | lib/oven.py:718-719 | the duration is at least every point's time and is one of them |
| Schedule.Duration | lib/oven.py:718-719 | `get_duration`, the largest point time; its properties are those of `Schedule.MaxTime` and `Schedule.DurationIsLastTime` |
| Schedule.DurationIsLastTime | lib/oven.py:716-719 | for a sorted profile the duration is the last point's time |
| Schedule.FirstLater | lib/oven.py:728-732 | the loop finds the first point strictly after `t`, or reports that none is |
| Schedule.SurroundingPoints | lib/oven.py:721-734 | none at or past the duration; before the first point, the wrap-around pair (last, first); otherwise consecutive points with prev.time <= t < next.time |
| Schedule.Slope | lib/oven.py:742 | the slope `incl` of a segment; `Schedule.LineDifference` and `Schedule.Crossing` state what the line through it does |
| Schedule.Interpolate | lib/oven.py:742-743 | the straight line through two points passes through both |
| Schedule.TargetTemperatureAsWritten | lib/oven.py:736-744 | the lookup as written fails exactly at the duration, and before the first point when the first and last times coincide (the wrap-around pair then has a zero time span); it is 0 past the duration |
| Schedule.TargetTemperature | lib/oven.py:736-744 | 0 past the duration; the last temperature at it; before the first point, the wrap-around line; otherwise the line through the surrounding consecutive points |
| Schedule.AsWrittenAgreesOffDuration | lib/oven.py:736-744 | away from the duration, the corrected lookup returns what the source returns |
| Schedule.LastPointLookupFails | lib/oven.py:721-744 | on the two-point test schedule, looking up time 60 (its duration) fails |
| Schedule.TargetInSegment | lib/oven.py:740-743 | inside a segment the target is that segment's linear interpolation |
| Schedule.TargetAtPoint | lib/oven.py:736-744 | with distinct times, the target at a point's time is that point's temperature |
| Schedule.CrossingTime | lib/oven.py:782-788 | the interpolated crossing time lies within the rest of the segment, strictly after its start |
| Schedule.FindInSegments | lib/oven.py:762-790 | any time the segment loop returns lies between `from_time` and the duration |
| Schedule.FindTimeForTemperature | lib/oven.py:746-790 | None once `from_time` reaches the duration; `from_time` itself when the target there already reaches the temperature; any result lies in [from_time, duration] |
| Schedule.Crossing | lib/oven.py:781-788 | the crossing formula hits the temperature exactly, and the line is below it before then |
| Schedule.SegmentSearchCorrect | lib/oven.py:762-790 | the segment loop returns the first time at which the schedule reaches the temperature, or None when the schedule stays below it |
| Schedule.FindTimeIsEarliest | lib/oven.py:746-752 | the documented promise: a result is the earliest time from `from_time` at which the schedule reaches the temperature; None means it never does before the end |
| Sensor.RowInterpolate | lib/oven.py:42-44 | the correction table's straight line between two rows; its bounds are stated by `Sensor.RowInterpolateBetween` and its use by `Sensor.OffsetInterpolates` |
| Sensor.RowInterpolateBetween | lib/oven.py:40-44 | between two table rows the interpolated offset lies between their offsets |
| Sensor.OffsetSearch | lib/oven.py:40-45 | the table scan returns a value between the table's smallest and largest offsets |
| Sensor.ThermocoupleOffset | lib/oven.py:30-45 | the flat offset without a table; the first offset at or below the first temperature; the last offset at or above the last; always between the table's offsets |
| Sensor.OffsetInterpolates | lib/oven.py:40-44 | strictly between two adjacent table temperatures, the offset is the straight line between their rows |
| Sensor.SumBounds | lib/oven.py:229 | a sum of values within [lo, hi] is within n·lo and n·hi |
| Sensor.SeqMin | lib/oven.py:219-229 | the smallest sample, at most every sample and one of them |
| Sensor.SeqMax | lib/oven.py:219-229 | the largest sample, at least every sample and one of them |
| Sensor.TrimmedSamples | lib/oven.py:224-228 | dropping `int(n·0.25)` samples from each end keeps n − 2·(n/4) samples, never none, all from the input |
| Sensor.TrimmedIsMiddle | lib/oven.py:219-228 | the dropped low, kept and dropped high parts partition the samples, and every kept sample lies between the dropped ones |
| Sensor.AverageTemp | lib/oven.py:219-229 | `get_avg_temp`, the mean of the trimmed samples; what it keeps is stated by `Sensor.TrimmedIsMiddle`, and its bounds by `Sensor.AverageTempBounds` |
| Sensor.AverageTempBounds | lib/oven.py:219-229 | the trimmed mean lies between the smallest and largest sample |
| Sensor.WindowPercent | lib/oven.py:187-190 | the bad-reading percentage is in [0, 100]; it is 0 exactly when nothing was bad, and 100 exactly when something was bad and nothing good |
| Sensor.WindowPercentOver30 | lib/oven.py:187-188 | the emergency test `bad_percent > 30` holds exactly when 7·bad > 3·ok |
| Sensor.IsBadReading | lib/oven.py:201-203 | a reading is bad on a lost connection or an unknown error, and on a short unless short errors are ignored; `Sensor.RecordReading` states what a bad reading does |
| Sensor.PushSample | lib/oven.py:205-208 | a good reading is appended; when the list would exceed its length, exactly the oldest sample is removed; the length never exceeds the limit |
| Sensor.PushSampleSlides | lib/oven.py:205-208 | pushing onto the last `limit` readings gives the last `limit` readings of the longer history |
| Sensor.CloseWindow | lib/oven.py:186-193 | after two time steps the percentage is recomputed, the counters are cleared and the window restarts at `now`; otherwise nothing changes |
| Sensor.RecordReading | lib/oven.py:195-213 | the fault flags are published; a bad reading only increments `bad_count`; a good one is pushed and increments `ok_count` |
| Sensor.Republish | lib/oven.py:215-216 | the temperature is the trimmed mean when samples exist and is left unchanged otherwise |
| Sensor.SampleStep | lib/oven.py:184-217 | one loop pass keeps the sampler invariant and gives each new field: list, counters, percentage, flags, and a temperature within the kept samples |
| Sensor.SampleStepSlides | lib/oven.py:205-208 | over a run, the kept list is the last `temperature_average_samples` good readings |
| Sensor.TempSampler.constructor | lib/oven.py:137-158 | a new sampler has an empty list, zero counters, percentage and temperature, and no faults |
| Sensor.TempSampler.Sample | lib/oven.py:181-217 | one pass of the sampling thread updates the object's fields to `SampleStep` of their old values, keeping the invariant |
| PidControl.MiddleIsClamp | lib/oven.py:838 | the middle of `sorted([-100, x, 100])` is the clamp of x to [-100, 100] |
| PidControl.Step | lib/oven.py:825-847 | output in [0, 1]; exactly 0 below the window and 1 above it, with `iterm` unchanged; inside the window, the integral and derivative updates and the clamped, scaled, non-negative sum |
| PidControl.DutyCycleOfSum | lib/oven.py:837-847 | inside the window the output is the PID sum / 100 cut to [0, 1] |
| PidControl.Stats | lib/oven.py:849-864 | the figures `compute` records; `PidControl.Pid.Compute` and `Firing.Oven.Tick` state them for each step |
| PidControl.Pid.constructor | lib/oven.py:795-802 | a new controller has the given gains, no integral, no last error and no stats |
| PidControl.Pid.Compute | lib/oven.py:809-866 | the output and new `iterm` are the step's, `lastErr` is the error and `lastNow` is `now`, and the stats are recorded |
| Firing.Measured | lib/oven.py:378-379 | the temperature the oven acts on, the reading plus its offset: the reading plus the flat offset without a table, and never more than the reading plus the table's largest offset |
| Firing.Faulted | lib/oven.py:344-355 | any of the four thermocouple faults; `Firing.Oven.RunProfile` states that it keeps the oven idle |
| Firing.Emergency | lib/oven.py:416-437 | any of the four emergency conditions not configured to be ignored; `Firing.Oven.ResetIfEmergency` states that it ends the run |
| Firing.Elapsed | lib/oven.py:405-411 | schedule time is the seconds since the start, never negative |
| Firing.CostIncrement | lib/oven.py:445-450 | no cost when the heater is off; never negative for non-negative rates |
| Firing.HeaterSplit | lib/oven.py:682-683 | heating and cooling seconds add up to the time step |
| Firing.HeaterSplitBounds | lib/oven.py:682-688 | with a positive step, some heating happens exactly when the duty cycle is positive; a duty cycle in [0, 1] keeps both parts within the step |
| Firing.WarmupSkipApplies | lib/oven.py:388-391 | the warmup-skip guard: threshold set and both temperatures below it; `Firing.CatchUpDecision` states when it leads to a skip |
| Firing.CatchUpDecision | lib/oven.py:374-403 | nothing happens exactly when the feature is off or the kiln is within the window; a skip happens exactly when the threshold is set, both temperatures are below it, the kiln is too hot, and the search finds a later schedule time, and it goes to that time; otherwise, outside the window, the schedule is held |
| Firing.CaughtUpStart | lib/oven.py:380-403 | the start time after `kiln_must_catch_up`; `Firing.CatchUpHoldsClock` states what the clock then reads |
| Firing.CatchUpHoldsClock | lib/oven.py:380-411 | read at the same clock time, a held schedule still reads its runtime, a skipped one reads the skip time, and an untouched one runs on |
| Firing.SkipLandsOnMeasured | lib/oven.py:395-401 | a warmup skip jumps to the earliest later schedule time whose target equals the kiln temperature |
| Firing.Oven.constructor | lib/oven.py:234-264 | a new oven is reset: idle, at rest, no cost, no session |
| Firing.Oven.Reset | lib/oven.py:266-276 | idle, no profile, every schedule field and the cost 0, and a fresh controller |
| Firing.Oven.StopSession | lib/oven.py:302-320 | the open session, if any, is closed with the given outcome; nothing else changes |
| Firing.Oven.AbortRun | lib/oven.py:369-372 | the open session is closed with the given outcome, and the oven is reset |
| Firing.Oven.RunProfile | lib/oven.py:339-367 | first reset and abort any session; stay idle on any thermocouple fault; otherwise run from `startat·60` seconds with the profile's duration and open a session |
| Firing.Oven.KilnMustCatchUp | lib/oven.py:374-403 | the start time follows the decision: unchanged, held so the clock still reads `runtime`, or moved to the skip time with the PID memory cleared |
| Firing.Oven.UpdateRuntime | lib/oven.py:405-411 | runtime is the non-negative elapsed schedule time |
| Firing.Oven.UpdateTargetTemp | lib/oven.py:413-414 | the target is the schedule's temperature at the current runtime |
| Firing.Oven.UpdateCost | lib/oven.py:445-450 | the cost grows by the tick's increment, so it never decreases for non-negative rates and heat |
| Firing.Oven.HeatThenCool | lib/oven.py:678-688 | the controller is stepped on target vs corrected temperature; heat on/off split the time step; the heat flag is 1 exactly when the duty cycle is positive, given a positive time step |
| Firing.Oven.ResetIfEmergency | lib/oven.py:416-437 | any emergency that is not ignored ends the run with outcome ERROR and resets the oven; otherwise nothing changes |
| Firing.Oven.AbortOnError | lib/oven.py:416-437 | one emergency check: abort with ERROR when it fails, no change otherwise |
| Firing.Oven.ResetIfScheduleEnded | lib/oven.py:439-443 | past the total time the run ends COMPLETED and the oven is reset; otherwise nothing changes |
| Firing.Oven.AutomaticRestart | lib/oven.py:531-542 | the saved run resumes at exactly the saved runtime after the minutes round trip, and the saved cost is restored |
| Firing.Oven.Advance | lib/oven.py:559-564 | the control steps of a running pass: the new start time, runtime, target, cost, controller memory and stats, and a heat flag on exactly when the duty cycle is positive, given a positive time step |
| Firing.Oven.StopIfNeeded | lib/oven.py:569-570 | an emergency ends the run as ERROR; otherwise a runtime past the total ends it as COMPLETED; otherwise nothing changes |
| Firing.Oven.Tick | lib/oven.py:550-570 | the controller is the same object or a fresh one, and its last clock reading is at most `now`, so passes chain. Idle without a restart changes nothing, the controller's memory, stats and clock included. A restart resumes the saved run at its runtime, profile, start time and total time, with a fresh controller and the saved cost. A running pass stops exactly on an emergency or when the caught-up clock is past the total time, closing the session as ERROR or COMPLETED. A run that goes on has 0 <= runtime <= totaltime, the clock the catch-up decided, the schedule's target, the exact cost step, the controller stepped on that target from cleared memory after a skip, and a heat flag on exactly when the duty cycle is positive, given a positive time step |
| Firing.Oven.LoopPass | lib/oven.py:551-570 | one pass of `run`: the oven stays Valid, the controller's clock is at most the pass's `now`, and an idle pass without a restart changes nothing |
| Firing.Oven.Run | lib/oven.py:550-570 | the `while True` loop over passes at increasing clock readings: the oven stays Valid throughout, the controller's clock is at most the last reading, and an idle oven never offered a restart is left exactly as it was |
| Firing.StartScenario | tests/test_session_lifecycle.py:59-71 | starting the two-point schedule opens a session and runs it from 0 for 60 seconds |
| Firing.AbortScenario | tests/test_session_lifecycle.py:73-82 | aborting that run leaves the oven idle with the session closed as ABORTED |
| Firing.ScheduleEndScenario | tests/test_session_lifecycle.py:84-95 | a runtime past the total time closes the session as COMPLETED |

## Left out

- Hardware and I/O are not modelled: GPIO output, the board, the MAX31855/MAX31856 drivers and the LCD. The sensor is a value carrying a temperature and four fault flags.
- Threads and `time.sleep` are not modelled. One pass of each `while True` loop is a method (`Sensor.TempSampler.Sample`, `Firing.Oven.Tick`). The oven's loop is `Firing.Oven.Run` over a finite sequence of passes; the sampler's loop is not modelled beyond one pass. The interleaving of the sampler and oven threads is not captured.
- The simulated oven's thermal physics is not modelled; it is a floating-point simulation with no stated contract.
- State-file I/O is not modelled: saving state, the file-age test, the JSON loads and the profile path lookup. The restart decision is the `restart` argument of `Tick`, and the saved state is a `Snapshot`.
- The SQLite session hooks are a ghost `sessionOpen` flag plus the last outcome. Per-tick sample persistence is not modelled, and `lib/kiln_db.py` is not part of this model.
- Logging and `get_state` are not modelled; they produce messages and a dictionary only.
- The wall-clock start timestamp `_wall_start_ts` is not modelled; only the UI reads it. `run_profile` also stores `startat * 60` in `self.startat`, which nothing reads; the same value is modelled as the starting runtime.
- Floating-point rounding, and the microsecond rounding of `timedelta`, are not modelled. Reals are exact, so the minutes round trip in `Firing.Oven.AutomaticRestart` is exact.
- Firing.Oven.Tick: one `now` serves the whole pass, whereas the source reads the clock separately in each step. It requires the controller's last clock reading to be earlier than `now`.
- Firing.Oven.UpdateTargetTemp uses the corrected lookup `Schedule.TargetTemperature`. In the source, a pass whose runtime equals the total time exactly makes `get_target_temperature` raise `TypeError`, and the oven thread dies, since `run` has no handler. The model carries on with the last point's temperature and does not model the thread dying. With one `now` per pass, a warmup skip to the last point lands exactly on that runtime in the model; the source's separate clock reads usually put it just past the end.
- Firing.Oven.HeatThenCool requires the controller's last clock reading to be earlier than `now`, because the PID step divides by the elapsed time; the source would divide by zero on an equal reading.
- Sensor.TempSampler.Sample: one `now` serves both clock reads in the error-window test and its reset.
- Sensor.TempSampler.Sample: the sliding-window fact, that the list is the last good readings, is the lemma `Sensor.SampleStepSlides` over an explicit history, not a field invariant of the class.
- PidControl.Pid.Compute: the recorded `time` is `now` in seconds, not the local-time conversion the source uses.
- Settings.ValidConfig: `ki` must be non-zero, because the source divides by it inside the control window.
- Schedule.TargetTemperature requires that a lookup before the first point uses a profile whose first and last times differ. Otherwise the wrap-around pair has a zero time span and the source divides by zero. The oven's `Runnable` states the same condition for the schedules it runs, and `Firing.Oven.RunProfile` and `Firing.Oven.AutomaticRestart` require it of their callers, where the source would raise mid-run instead.
- Firing.Oven.RunProfile requires a non-empty profile, as does every schedule operation (`Schedule.ValidProfile`). The source accepts an empty one. With a faulted sensor it stays idle. Otherwise it sets the profile, runtime and start time, and then `get_duration` raises `ValueError` on `max([])`, leaving the oven half started. That error path is not modelled.
- Sensor.TempSampler.constructor accepts `temperature_average_samples == 0`, giving a sampler that never keeps a reading. The source's `TempSensorReal.__init__` divides the time step by that count and raises `ZeroDivisionError` before sampling starts. That error path is not modelled.
- Schedule.FindTimeIsEarliest is stated for `from_time` at or after the first point, with distinct point times. Before the first point the lookup uses the wrap-around line, which is not a segment the search visits. Distinct times are needed because a zero-width segment is a jump: the search returns the jump time, where the (corrected) target is the later point's temperature, above the one searched for. For the profile [(0, 0), (10, 50), (10, 200), (20, 200)], the search for 100 from 0 returns 10, and the target at 10 is 200. In that example the result is still the earliest time at which the target reaches at least the temperature, but it no longer equals it.
- Firing.SkipLandsOnMeasured is stated for distinct point times and a runtime at or after the first point, because it rests on `Schedule.FindTimeIsEarliest` and has the same domain. On a profile with a jump, a warmup skip lands on the jump time, where the target exceeds the kiln temperature. `Firing.CatchUpDecision` itself covers every runnable profile.

## Findings

| source | as written | input that shows it | evidently intended | confidence | as-written member | corrected member |
|---|---|---|---|---|---|---|
| lib/oven.py:736-744 | at `time == duration` no point lies strictly after `time`, so `get_surrounding_points` returns `(None, None)` and subscripting it raises `TypeError` | profile `[[0, 70], [60, 100]]` (the lifecycle tests' profile), `get_target_temperature(60)` | the last point's temperature, the value the last segment reaches at its end | high (not executed) | Schedule.TargetTemperatureAsWritten, Schedule.LastPointLookupFails | Schedule.TargetTemperature, Schedule.TargetAtPoint |
