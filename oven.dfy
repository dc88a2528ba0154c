/**
 * The kiln controller's run state machine (lib/oven.py, class `Oven`, and the
 * heater decision of `RealOven`). The oven is IDLE or RUNNING a firing
 * schedule; each pass of its loop charges the energy used, holds or skips the
 * schedule while the kiln catches up, advances the schedule clock, looks up
 * the target, drives the heater from the PID controller, and stops the run on
 * an emergency or at the end of the schedule.
 *
 * Clock readings are parameters (`now`, in seconds); the temperature sensor is
 * the `SensorState` value its sampling thread last published.
 */
module Firing {
  import opened Wrappers
  import opened Settings
  import opened Schedule
  import opened Sensor
  import opened PidControl
  import RealArith

  datatype RunState = Idle | Running

  /** How a run ended, as reported to the session log. */
  datatype Outcome = Aborted | Error | Completed

  /** What the automatic-restart file holds for a run that was in progress. */
  datatype Snapshot = Snapshot(runtime: real, cost: real, profile: Profile)

  /**
   * What one pass of the oven loop sees: the published sensor state, the
   * clock reading, and the restart snapshot when a recent one is on file.
   */
  datatype Pass = Pass(sensor: SensorState, now: real, restart: Option<Snapshot>)

  /** The corrected temperature the oven acts on: the reading plus its thermocouple offset. */
  function Measured(cfg: Config, sensor: SensorState): (t: real)
    ensures cfg.correctionTable == [] ==> t == sensor.temperature + cfg.thermocoupleOffset
    ensures cfg.correctionTable != [] ==>
              exists k :: 0 <= k < |cfg.correctionTable|
                          && t <= sensor.temperature + cfg.correctionTable[k].offset
  {
    sensor.temperature + ThermocoupleOffset(cfg, sensor.temperature)
  }

  /** A thermocouple fault that makes `run_profile` refuse to start. */
  predicate Faulted(sensor: SensorState) {
    sensor.noConnection || sensor.shortToGround || sensor.shortToVCC || sensor.unknownError
  }

  /**
   * The conditions of `reset_if_emergency`, each unless configured to be
   * ignored: too hot, lost thermocouple, unknown thermocouple error, or more
   * than 30% bad readings in the last window.
   */
  predicate Emergency(cfg: Config, sensor: SensorState) {
    || (Measured(cfg, sensor) >= cfg.emergencyShutoffTemp && !cfg.ignoreTempTooHigh)
    || (sensor.noConnection && !cfg.ignoreLostConnectionTc)
    || (sensor.unknownError && !cfg.ignoreUnknownTcError)
    || (sensor.badPercent > 30.0 && !cfg.ignoreTooManyTcErrors)
  }

  /**
   * A profile the loop can look up at schedule time `runtime` and later: the
   * lookup before the first point interpolates between the last and first
   * points, which divides by zero when they share a time, so such a profile
   * is only run from a time at or after its start.
   */
  ghost predicate Runnable(p: Profile, runtime: real) {
    ValidProfile(p) && (Start(p) < Duration(p) || Start(p) <= 0.0 <= runtime)
  }

  /** `update_runtime`: the seconds since `startTime`, never negative. */
  function Elapsed(startTime: real, now: real): (r: real)
    ensures r >= 0.0
    ensures now >= startTime ==> r == now - startTime
    ensures now < startTime ==> r == 0.0
  {
    if now - startTime < 0.0 then 0.0 else now - startTime
  }

  lemma CostFactorsNonNegative(rate: real, kw: real, heat: real)
    ensures rate >= 0.0 && kw >= 0.0 && heat >= 0.0 ==> (rate * kw) * (heat / 3600.0) >= 0.0
  {
    if rate >= 0.0 && kw >= 0.0 && heat >= 0.0 {
      RealArith.ProductNonNegative(rate, kw);
      RealArith.ProductNonNegative(rate * kw, heat / 3600.0);
    }
  }

  /** The energy cost of one tick with the heater at `heat` (kW for `heat` seconds). */
  function CostIncrement(cfg: Config, heat: real): (c: real)
    ensures heat == 0.0 ==> c == 0.0
    ensures cfg.kwhRate >= 0.0 && cfg.kwElements >= 0.0 && heat >= 0.0 ==> c >= 0.0
  {
    if heat != 0.0 then
      CostFactorsNonNegative(cfg.kwhRate, cfg.kwElements, heat);
      (cfg.kwhRate * cfg.kwElements) * (heat / 3600.0)
    else 0.0
  }

  /** The heater's share of a tick: `on` seconds heating and `off` seconds cooling, filling the tick. */
  function HeaterSplit(timeStep: real, duty: real): (r: (real, real))
    ensures r.0 + r.1 == timeStep
  {
    (timeStep * duty, timeStep * (1.0 - duty))
  }

  /**
   * The heater is on for some of a tick exactly when the duty cycle is
   * positive, and a duty cycle in [0, 1] keeps both parts within the tick.
   */
  lemma HeaterSplitBounds(timeStep: real, duty: real)
    ensures var (on, off) := HeaterSplit(timeStep, duty);
            && (timeStep > 0.0 ==> (on > 0.0 <==> duty > 0.0))
            && (timeStep >= 0.0 && 0.0 <= duty <= 1.0 ==> 0.0 <= on <= timeStep && 0.0 <= off <= timeStep)
  {
    if timeStep > 0.0 && duty > 0.0 {
      RealArith.ProductPositive(timeStep, duty);
    }
    if timeStep >= 0.0 && 0.0 <= duty <= 1.0 {
      RealArith.ProductNonNegative(timeStep, duty);
      RealArith.ProductNonNegative(timeStep, 1.0 - duty);
    }
    if timeStep > 0.0 && duty <= 0.0 {
      RealArith.ProductNonNegative(timeStep, -duty);
    }
  }

  /** What `kiln_must_catch_up` does to the schedule. */
  datatype Adjustment =
    | Keep             // leave the schedule clock alone
    | Freeze           // hold the schedule where it is for this tick
    | SkipTo(time: real) // jump the schedule to `time` and clear the PID memory

  /** The schedule is configured to skip ahead when the kiln is hot early, and both temperatures are low enough. */
  predicate WarmupSkipApplies(cfg: Config, temp: real, target: real) {
    cfg.warmupSkipThreshold > 0.0 && temp < cfg.warmupSkipThreshold && target < cfg.warmupSkipThreshold
  }

  /**
   * The decision of `kiln_must_catch_up` for measured `temp` against the
   * current `target` at schedule time `runtime`: too cold holds the schedule;
   * too hot skips ahead to where the schedule reaches `temp` when the warmup
   * skip applies and that time is later, and otherwise holds the schedule.
   */
  function CatchUpDecision(cfg: Config, p: Profile, temp: real, target: real, runtime: real): (a: Adjustment)
    requires Runnable(p, runtime)
    ensures a == Keep <==>
              !cfg.kilnMustCatchUp
              || (!(target - temp > cfg.pidControlWindow) && !(temp - target > cfg.pidControlWindow))
    ensures a.SkipTo? ==>
              && cfg.kilnMustCatchUp
              && WarmupSkipApplies(cfg, temp, target)
              && temp - target > cfg.pidControlWindow
              && a.time > runtime
              && FindTimeForTemperature(p, temp, runtime) == Some(a.time)
    ensures var skip := FindTimeForTemperature(p, temp, runtime);
            && cfg.kilnMustCatchUp && temp - target > cfg.pidControlWindow
            && WarmupSkipApplies(cfg, temp, target) && skip.Some? && skip.value > runtime
            ==> a == SkipTo(skip.value)
    ensures a == Freeze <==>
              && cfg.kilnMustCatchUp
              && (target - temp > cfg.pidControlWindow || temp - target > cfg.pidControlWindow)
              && !a.SkipTo?
  {
    if !cfg.kilnMustCatchUp then Keep
    else
      var tooCold := target - temp > cfg.pidControlWindow;
      var tooHot := temp - target > cfg.pidControlWindow;
      var skip := if tooHot && WarmupSkipApplies(cfg, temp, target)
                  then FindTimeForTemperature(p, temp, runtime) else None;
      if skip.Some? && skip.value > runtime then SkipTo(skip.value)
      else if tooCold || tooHot then Freeze
      else Keep
  }

  /**
   * The clock time the schedule is counted from after `kiln_must_catch_up`
   * acts on `a`: unchanged, moved so that the schedule still reads `runtime`
   * at `now`, or moved so that it reads the skip time at `now`.
   */
  function CaughtUpStart(a: Adjustment, startTime: real, runtime: real, now: real): real {
    match a
    case Keep => startTime
    case Freeze => now - runtime
    case SkipTo(s) => now - s
  }

  /**
   * Read at the same `now`, the schedule clock after a catch-up: it runs on
   * from the old start when nothing is done, stays at `runtime` when held,
   * and reads the skip time after a skip.
   */
  lemma CatchUpHoldsClock(a: Adjustment, startTime: real, runtime: real, now: real)
    ensures a == Keep ==> Elapsed(CaughtUpStart(a, startTime, runtime, now), now) == Elapsed(startTime, now)
    ensures a == Freeze && runtime >= 0.0 ==> Elapsed(CaughtUpStart(a, startTime, runtime, now), now) == runtime
    ensures a.SkipTo? && a.time >= 0.0 ==> Elapsed(CaughtUpStart(a, startTime, runtime, now), now) == a.time
  {
  }

  /**
   * A warmup skip lands on the earliest schedule time after `runtime` at which
   * the schedule's target equals the measured temperature.
   */
  lemma SkipLandsOnMeasured(cfg: Config, p: Profile, temp: real, target: real, runtime: real)
    requires Runnable(p, runtime) && DistinctTimes(p) && Start(p) <= runtime
    requires CatchUpDecision(cfg, p, temp, target, runtime).SkipTo?
    ensures var s := CatchUpDecision(cfg, p, temp, target, runtime).time;
            && runtime < s <= Duration(p)
            && TargetTemperature(p, s) == temp
            && forall t :: runtime <= t < s ==> TargetTemperature(p, t) < temp
  {
    FindTimeIsEarliest(p, temp, runtime);
  }

  class Oven {
    const cfg: Config
    var state: RunState
    var cost: real
    var profile: Option<Profile>
    var startTime: real     // the clock time at which the schedule clock read 0
    var runtime: real       // schedule time, seconds
    var totaltime: real
    var target: real
    var heat: real
    var pid: Pid
    ghost var sessionOpen: bool              // a session row is open in the run log
    ghost var lastOutcome: Option<Outcome>   // how the last logged session ended

    /** The fields `reset` clears, cost aside. */
    ghost predicate AtRest()
      reads this
    {
      profile.None? && startTime == 0.0 && runtime == 0.0 && totaltime == 0.0
      && target == 0.0 && heat == 0.0
    }

    ghost predicate Valid()
      reads this
    {
      && ValidConfig(cfg)
      && pid.kp == cfg.kp && pid.ki == cfg.ki && pid.kd == cfg.kd
      && (state == Running <==> profile.Some?)
      && (profile.Some? ==> Runnable(profile.value, runtime) && totaltime == Duration(profile.value))
      && (state == Idle ==> AtRest())
      && (sessionOpen ==> state == Running)
    }

    /** A new oven, reset at clock time `now`. */
    constructor(cfg: Config, now: real)
      requires ValidConfig(cfg)
      ensures this.cfg == cfg && Valid()
      ensures state == Idle && AtRest() && cost == 0.0
      ensures !sessionOpen && lastOutcome == None
    {
      this.cfg := cfg;
      state, cost, profile := Idle, 0.0, None;
      startTime, runtime, totaltime, target, heat := 0.0, 0.0, 0.0, 0.0, 0.0;
      pid := new Pid(cfg.ki, cfg.kp, cfg.kd, now);
      sessionOpen, lastOutcome := false, None;
    }

    /** `reset` at clock time `now`: idle, nothing scheduled, no cost, and a new controller. */
    method Reset(now: real)
      modifies this
      ensures state == Idle && AtRest() && cost == 0.0
      ensures fresh(pid) && pid.kp == cfg.kp && pid.ki == cfg.ki && pid.kd == cfg.kd
      ensures pid.lastNow == now && pid.iterm == 0.0 && pid.lastErr == 0.0 && pid.pidstats == None
      ensures sessionOpen == old(sessionOpen) && lastOutcome == old(lastOutcome)
    {
      cost, state, profile := 0.0, Idle, None;
      startTime, runtime, totaltime, target, heat := 0.0, 0.0, 0.0, 0.0, 0.0;
      pid := new Pid(cfg.ki, cfg.kp, cfg.kd, now);
    }

    /** Closing the open session, if any, with `outcome`. */
    ghost method StopSession(outcome: Outcome)
      modifies this
      ensures !sessionOpen
      ensures lastOutcome == if old(sessionOpen) then Some(outcome) else old(lastOutcome)
      ensures state == old(state) && cost == old(cost) && profile == old(profile)
      ensures startTime == old(startTime) && runtime == old(runtime) && totaltime == old(totaltime)
      ensures target == old(target) && heat == old(heat) && pid == old(pid)
    {
      if sessionOpen {
        lastOutcome := Some(outcome);
        sessionOpen := false;
      }
    }

    /** `abort_run(outcome)`: the session is closed with `outcome` and the oven reset. */
    method AbortRun(outcome: Outcome, now: real)
      requires Valid()
      modifies this
      ensures Valid()
      ensures state == Idle && AtRest() && cost == 0.0
      ensures fresh(pid) && pid.lastNow == now && pid.iterm == 0.0 && pid.lastErr == 0.0
      ensures !sessionOpen
      ensures lastOutcome == if old(sessionOpen) then Some(outcome) else old(lastOutcome)
    {
      StopSession(outcome);
      Reset(now);
    }

    /**
     * `run_profile(p, startat)` at clock time `now`, `startat` in minutes: any
     * run in progress is aborted and the oven reset; a thermocouple fault then
     * leaves it idle, and otherwise the run starts `startat` minutes into `p`.
     */
    method RunProfile(p: Profile, startat: real, sensor: SensorState, now: real)
      requires Valid()
      requires Runnable(p, startat * 60.0)
      modifies this
      ensures Valid()
      ensures fresh(pid) && pid.lastNow == now && pid.iterm == 0.0 && pid.lastErr == 0.0 && pid.pidstats == None
      ensures cost == 0.0 && target == 0.0 && heat == 0.0
      ensures Faulted(sensor) ==> state == Idle && AtRest() && !sessionOpen
      ensures !Faulted(sensor) ==>
                && state == Running && profile == Some(p) && sessionOpen
                && runtime == startat * 60.0 && startTime == now - startat * 60.0
                && totaltime == Duration(p)
      ensures lastOutcome == if old(sessionOpen) then Some(Aborted) else old(lastOutcome)
    {
      StopSession(Aborted);
      Reset(now);
      if sensor.noConnection {
        return;
      }
      if sensor.shortToGround {
        return;
      }
      if sensor.shortToVCC {
        return;
      }
      if sensor.unknownError {
        return;
      }
      var startSeconds := startat * 60.0;
      runtime := startSeconds;
      startTime := now - startSeconds;
      profile := Some(p);
      totaltime := Duration(p);
      state := Running;
      sessionOpen := true;
    }

    /**
     * `kiln_must_catch_up` at clock time `now`: the schedule clock is held
     * (the start moved so that it still reads `runtime` now) or skipped ahead
     * as `CatchUpDecision` says; a skip also clears the PID memory.
     */
    method KilnMustCatchUp(sensor: SensorState, now: real)
      requires Valid() && state == Running
      modifies this, pid
      ensures Valid()
      ensures var a := CatchUpDecision(cfg, old(profile).value, Measured(cfg, sensor), old(target), old(runtime));
              && startTime == CaughtUpStart(a, old(startTime), old(runtime), now)
              && (a.SkipTo? ==> pid.iterm == 0.0 && pid.lastErr == 0.0)
              && (!a.SkipTo? ==> pid.iterm == old(pid.iterm) && pid.lastErr == old(pid.lastErr))
      ensures state == old(state) && cost == old(cost) && profile == old(profile)
      ensures runtime == old(runtime) && totaltime == old(totaltime) && target == old(target)
      ensures heat == old(heat) && pid == old(pid)
      ensures pid.lastNow == old(pid.lastNow) && pid.pidstats == old(pid.pidstats)
      ensures sessionOpen == old(sessionOpen) && lastOutcome == old(lastOutcome)
    {
      var a := CatchUpDecision(cfg, profile.value, Measured(cfg, sensor), target, runtime);
      match a {
        case Keep =>
        case Freeze =>
          startTime := now - runtime;
        case SkipTo(s) =>
          startTime := now - s;
          pid.iterm := 0.0;
          pid.lastErr := 0.0;
      }
    }

    /** `update_runtime` at clock time `now`. */
    method UpdateRuntime(now: real)
      requires Valid() && state == Running
      modifies this
      ensures Valid()
      ensures runtime == Elapsed(startTime, now) && runtime >= 0.0
      ensures state == old(state) && cost == old(cost) && profile == old(profile)
      ensures startTime == old(startTime) && totaltime == old(totaltime) && target == old(target)
      ensures heat == old(heat) && pid == old(pid)
      ensures sessionOpen == old(sessionOpen) && lastOutcome == old(lastOutcome)
    {
      runtime := Elapsed(startTime, now);
    }

    /** `update_target_temp`: the schedule's target at the current schedule time. */
    method UpdateTargetTemp()
      requires Valid() && state == Running
      modifies this
      ensures Valid()
      ensures profile.Some? && target == TargetTemperature(profile.value, runtime)
      ensures state == old(state) && cost == old(cost) && profile == old(profile)
      ensures startTime == old(startTime) && runtime == old(runtime) && totaltime == old(totaltime)
      ensures heat == old(heat) && pid == old(pid)
      ensures sessionOpen == old(sessionOpen) && lastOutcome == old(lastOutcome)
    {
      target := TargetTemperature(profile.value, runtime);
    }

    /** `update_cost`: the energy of the last tick is added to the cost. */
    method UpdateCost()
      requires Valid()
      modifies this
      ensures Valid()
      ensures cost == old(cost) + CostIncrement(cfg, heat)
      ensures cfg.kwhRate >= 0.0 && cfg.kwElements >= 0.0 && heat >= 0.0 ==> cost >= old(cost)
      ensures state == old(state) && profile == old(profile) && startTime == old(startTime)
      ensures runtime == old(runtime) && totaltime == old(totaltime) && target == old(target)
      ensures heat == old(heat) && pid == old(pid)
      ensures sessionOpen == old(sessionOpen) && lastOutcome == old(lastOutcome)
    {
      cost := cost + CostIncrement(cfg, heat);
    }

    /**
     * `heat_then_cool` of the real oven at clock time `now`: the controller's
     * duty cycle splits the tick into heating and cooling seconds, and the
     * displayed heat flag is 1 exactly when some heating is asked for.
     */
    method HeatThenCool(sensor: SensorState, now: real) returns (heatOn: real, heatOff: real)
      requires Valid() && state == Running && pid.lastNow < now
      modifies this, pid
      ensures Valid()
      ensures var error, timeDelta := target - Measured(cfg, sensor), now - old(pid.lastNow);
              var r := Step(cfg.kp, cfg.ki, cfg.kd, cfg.pidControlWindow,
                            old(pid.iterm), old(pid.lastErr), timeDelta, error);
              && (heatOn, heatOff) == HeaterSplit(cfg.sensorTimeWait, r.output)
              && pid.iterm == r.iterm && pid.lastErr == error && pid.lastNow == now
              && pid.pidstats == Some(Stats(cfg.kp, cfg.ki, cfg.kd, now, timeDelta, target, Measured(cfg, sensor), r))
              && (cfg.sensorTimeWait > 0.0 ==> (heat == 1.0 <==> r.output > 0.0))
      ensures heatOn + heatOff == cfg.sensorTimeWait
      ensures heat == if heatOn > 0.0 then 1.0 else 0.0
      ensures state == old(state) && cost == old(cost) && profile == old(profile)
      ensures startTime == old(startTime) && runtime == old(runtime) && totaltime == old(totaltime)
      ensures target == old(target) && pid == old(pid)
      ensures sessionOpen == old(sessionOpen) && lastOutcome == old(lastOutcome)
    {
      var duty := pid.Compute(target, Measured(cfg, sensor), now, cfg.pidControlWindow);
      var split := HeaterSplit(cfg.sensorTimeWait, duty);
      HeaterSplitBounds(cfg.sensorTimeWait, duty);
      heatOn, heatOff := split.0, split.1;
      heat := 0.0;
      if heatOn > 0.0 {
        heat := 1.0;
      }
    }

    /**
     * `reset_if_emergency` at clock time `now`: each emergency condition that
     * is not ignored aborts the run with outcome `Error`; otherwise nothing changes.
     */
    method ResetIfEmergency(sensor: SensorState, now: real)
      requires Valid()
      modifies this
      ensures Valid()
      ensures Emergency(cfg, sensor) ==>
                && state == Idle && AtRest() && cost == 0.0 && !sessionOpen
                && fresh(pid) && pid.lastNow == now
                && lastOutcome == if old(sessionOpen) then Some(Error) else old(lastOutcome)
      ensures !Emergency(cfg, sensor) ==>
                && state == old(state) && cost == old(cost) && profile == old(profile)
                && startTime == old(startTime) && runtime == old(runtime) && totaltime == old(totaltime)
                && target == old(target) && heat == old(heat) && pid == old(pid)
                && sessionOpen == old(sessionOpen) && lastOutcome == old(lastOutcome)
    {
      AbortOnError(Measured(cfg, sensor) >= cfg.emergencyShutoffTemp && !cfg.ignoreTempTooHigh, now);
      AbortOnError(sensor.noConnection && !cfg.ignoreLostConnectionTc, now);
      AbortOnError(sensor.unknownError && !cfg.ignoreUnknownTcError, now);
      AbortOnError(sensor.badPercent > 30.0 && !cfg.ignoreTooManyTcErrors, now);
    }

    /** One check of `reset_if_emergency`: when `failed`, the run is aborted with outcome `Error`. */
    method AbortOnError(failed: bool, now: real)
      requires Valid()
      modifies this
      ensures Valid()
      ensures failed ==>
                && state == Idle && AtRest() && cost == 0.0 && !sessionOpen
                && fresh(pid) && pid.lastNow == now
                && lastOutcome == if old(sessionOpen) then Some(Error) else old(lastOutcome)
      ensures !failed ==>
                && state == old(state) && cost == old(cost) && profile == old(profile)
                && startTime == old(startTime) && runtime == old(runtime) && totaltime == old(totaltime)
                && target == old(target) && heat == old(heat) && pid == old(pid)
                && sessionOpen == old(sessionOpen) && lastOutcome == old(lastOutcome)
    {
      if failed {
        AbortRun(Error, now);
      }
    }

    /** `reset_if_schedule_ended` at clock time `now`: past the schedule's end the run completes. */
    method ResetIfScheduleEnded(now: real)
      requires Valid()
      modifies this
      ensures Valid()
      ensures old(runtime) > old(totaltime) ==>
                && state == Idle && AtRest() && cost == 0.0 && !sessionOpen
                && fresh(pid) && pid.lastNow == now
                && lastOutcome == if old(sessionOpen) then Some(Completed) else old(lastOutcome)
      ensures old(runtime) <= old(totaltime) ==>
                && state == old(state) && cost == old(cost) && profile == old(profile)
                && startTime == old(startTime) && runtime == old(runtime) && totaltime == old(totaltime)
                && target == old(target) && heat == old(heat) && pid == old(pid)
                && sessionOpen == old(sessionOpen) && lastOutcome == old(lastOutcome)
    {
      if runtime > totaltime {
        AbortRun(Completed, now);
      }
    }

    /**
     * `automatic_restart` at clock time `now`: the saved run is started again
     * at the saved runtime, converted to minutes and back, and the saved cost
     * is restored whether or not the start succeeded.
     */
    method AutomaticRestart(saved: Snapshot, sensor: SensorState, now: real)
      requires Valid()
      requires Runnable(saved.profile, saved.runtime)
      modifies this
      ensures Valid()
      ensures fresh(pid) && pid.lastNow == now && pid.iterm == 0.0 && pid.lastErr == 0.0 && pid.pidstats == None
      ensures cost == saved.cost && target == 0.0 && heat == 0.0
      ensures lastOutcome == if old(sessionOpen) then Some(Aborted) else old(lastOutcome)
      ensures Faulted(sensor) ==> state == Idle && AtRest() && !sessionOpen
      ensures !Faulted(sensor) ==>
                && state == Running && profile == Some(saved.profile) && sessionOpen
                && runtime == saved.runtime && startTime == now - saved.runtime
                && totaltime == Duration(saved.profile)
    {
      var startat := saved.runtime / 60.0;
      assert startat * 60.0 == saved.runtime;
      RunProfile(saved.profile, startat, sensor, now);
      cost := saved.cost;
    }

    /**
     * The control part of a running pass at clock time `now`: charge the last
     * tick's energy, catch up, advance the schedule clock, look up the target
     * and drive the heater.
     */
    method Advance(sensor: SensorState, now: real)
      requires Valid() && state == Running && pid.lastNow < now
      modifies this, pid
      ensures Valid() && state == Running && profile == old(profile)
      ensures var a := CatchUpDecision(cfg, old(profile).value, Measured(cfg, sensor), old(target), old(runtime));
              var start := CaughtUpStart(a, old(startTime), old(runtime), now);
              var iterm, lastErr := if a.SkipTo? then 0.0 else old(pid.iterm), if a.SkipTo? then 0.0 else old(pid.lastErr);
              var r := Step(cfg.kp, cfg.ki, cfg.kd, cfg.pidControlWindow, iterm, lastErr,
                            now - old(pid.lastNow), target - Measured(cfg, sensor));
              && startTime == start && runtime == Elapsed(start, now)
              && target == TargetTemperature(profile.value, runtime)
              && cost == old(cost) + CostIncrement(cfg, old(heat))
              && pid == old(pid) && pid.lastNow == now && pid.iterm == r.iterm
              && pid.lastErr == target - Measured(cfg, sensor)
              && pid.pidstats == Some(Stats(cfg.kp, cfg.ki, cfg.kd, now, now - old(pid.lastNow),
                                            target, Measured(cfg, sensor), r))
              && (heat == 0.0 || heat == 1.0)
              && (cfg.sensorTimeWait > 0.0 ==> (heat == 1.0 <==> r.output > 0.0))
      ensures totaltime == old(totaltime)
      ensures sessionOpen == old(sessionOpen) && lastOutcome == old(lastOutcome)
    {
      UpdateCost();
      KilnMustCatchUp(sensor, now);
      UpdateRuntime(now);
      UpdateTargetTemp();
      var heatOn, heatOff := HeatThenCool(sensor, now);
    }

    /**
     * The safety part of a running pass at clock time `now`: an emergency
     * ends the run as `Error`, and otherwise a clock past the end of the
     * schedule ends it as `Completed`.
     */
    method StopIfNeeded(sensor: SensorState, now: real)
      requires Valid()
      modifies this
      ensures Valid()
      ensures Emergency(cfg, sensor) ==>
                && state == Idle && AtRest() && cost == 0.0 && !sessionOpen
                && fresh(pid) && pid.lastNow == now
                && lastOutcome == if old(sessionOpen) then Some(Error) else old(lastOutcome)
      ensures !Emergency(cfg, sensor) && old(runtime) > old(totaltime) ==>
                && state == Idle && AtRest() && cost == 0.0 && !sessionOpen
                && fresh(pid) && pid.lastNow == now
                && lastOutcome == if old(sessionOpen) then Some(Completed) else old(lastOutcome)
      ensures !Emergency(cfg, sensor) && old(runtime) <= old(totaltime) ==>
                && state == old(state) && cost == old(cost) && profile == old(profile)
                && startTime == old(startTime) && runtime == old(runtime) && totaltime == old(totaltime)
                && target == old(target) && heat == old(heat) && pid == old(pid)
                && sessionOpen == old(sessionOpen) && lastOutcome == old(lastOutcome)
    {
      ResetIfEmergency(sensor, now);
      ResetIfScheduleEnded(now);
    }

    /**
     * One pass of the oven loop at clock time `now`. Idle, it restarts the
     * saved run when `restart` carries one. Running, it charges the last
     * tick's energy, catches up, advances the schedule clock, looks up the
     * target, drives the heater, and then stops on an emergency or past the
     * end of the schedule. A run that goes on has its clock within the
     * schedule, its target taken from it, the tick's energy charged, and the
     * controller stepped on that target (from cleared memory after a warmup
     * skip), with the heat flag on exactly when the duty cycle is positive. A
     * run that stops leaves the oven at rest, its session closed as `Error` on
     * an emergency and as `Completed` when the clock passed the end.
     */
    method Tick(sensor: SensorState, now: real, restart: Option<Snapshot>)
      requires Valid() && pid.lastNow < now
      requires restart.Some? ==> Runnable(restart.value.profile, restart.value.runtime)
      modifies this, pid
      ensures Valid()
      ensures pid == old(pid) || fresh(pid)
      ensures pid.lastNow <= now
      ensures old(state) == Idle && restart.None? ==>
                && state == Idle && AtRest() && cost == old(cost) && !sessionOpen
                && pid == old(pid) && pid.lastNow == old(pid.lastNow) && pid.iterm == old(pid.iterm)
                && pid.lastErr == old(pid.lastErr) && pid.pidstats == old(pid.pidstats)
                && lastOutcome == old(lastOutcome)
      ensures old(state) == Idle && restart.Some? ==>
                && cost == restart.value.cost && target == 0.0 && heat == 0.0
                && fresh(pid) && pid.lastNow == now && pid.iterm == 0.0 && pid.lastErr == 0.0
                && pid.pidstats == None && lastOutcome == old(lastOutcome)
                && (Faulted(sensor) ==> state == Idle && AtRest() && !sessionOpen)
                && (!Faulted(sensor) ==> state == Running && runtime == restart.value.runtime
                                         && profile == Some(restart.value.profile) && sessionOpen
                                         && startTime == now - restart.value.runtime
                                         && totaltime == Duration(restart.value.profile))
      ensures old(state) == Running ==> pid.lastNow == now && (state == Idle ==> fresh(pid))
      ensures old(state) == Running && Emergency(cfg, sensor) ==>
                state == Idle && AtRest() && cost == 0.0 && !sessionOpen
      ensures old(state) == Running && state == Idle ==> AtRest() && cost == 0.0 && !sessionOpen
      ensures old(state) == Running && state == Running ==>
                && !Emergency(cfg, sensor)
                && 0.0 <= runtime <= totaltime
                && profile == old(profile)
                && target == TargetTemperature(profile.value, runtime)
                && (heat == 0.0 || heat == 1.0)
                && (cfg.kwhRate >= 0.0 && cfg.kwElements >= 0.0 && old(heat) >= 0.0 ==> cost >= old(cost))
      ensures old(state) == Running && state == Running && old(runtime) >= 0.0 ==>
                runtime == match CatchUpDecision(cfg, old(profile).value, Measured(cfg, sensor), old(target), old(runtime))
                           case Keep => Elapsed(old(startTime), now)
                           case Freeze => old(runtime)
                           case SkipTo(s) => s
      ensures old(state) == Running ==>
                var a := CatchUpDecision(cfg, old(profile).value, Measured(cfg, sensor), old(target), old(runtime));
                var start := CaughtUpStart(a, old(startTime), old(runtime), now);
                && (!Emergency(cfg, sensor) ==> (state == Idle <==> Elapsed(start, now) > old(totaltime)))
                && (state == Running ==> runtime == Elapsed(start, now) && startTime == start)
      ensures old(state) == Running && state == Running ==>
                var a := CatchUpDecision(cfg, old(profile).value, Measured(cfg, sensor), old(target), old(runtime));
                var iterm, lastErr := if a.SkipTo? then 0.0 else old(pid.iterm), if a.SkipTo? then 0.0 else old(pid.lastErr);
                var r := Step(cfg.kp, cfg.ki, cfg.kd, cfg.pidControlWindow, iterm, lastErr,
                              now - old(pid.lastNow), target - Measured(cfg, sensor));
                && cost == old(cost) + CostIncrement(cfg, old(heat))
                && pid == old(pid) && pid.lastNow == now && pid.iterm == r.iterm
                && pid.lastErr == target - Measured(cfg, sensor)
                && pid.pidstats == Some(Stats(cfg.kp, cfg.ki, cfg.kd, now, now - old(pid.lastNow),
                                              target, Measured(cfg, sensor), r))
                && (cfg.sensorTimeWait > 0.0 ==> (heat == 1.0 <==> pid.pidstats.value.out > 0.0))
      ensures old(state) == Running && old(sessionOpen) && Emergency(cfg, sensor) ==>
                lastOutcome == Some(Error)
      ensures old(state) == Running && old(sessionOpen) && !Emergency(cfg, sensor) && state == Idle ==>
                lastOutcome == Some(Completed)
    {
      if state == Idle {
        if restart.Some? {
          AutomaticRestart(restart.value, sensor, now);
        }
        return;
      }
      ghost var a := CatchUpDecision(cfg, profile.value, Measured(cfg, sensor), target, runtime);
      CatchUpHoldsClock(a, startTime, runtime, now);
      Advance(sensor, now);
      StopIfNeeded(sensor, now);
    }

    /** One `Tick` of `run`, with just what the loop carries from pass to pass. */
    method LoopPass(pass: Pass)
      requires Valid() && pid.lastNow < pass.now
      requires pass.restart.Some? ==> Runnable(pass.restart.value.profile, pass.restart.value.runtime)
      modifies this, pid
      ensures Valid()
      ensures pid == old(pid) || fresh(pid)
      ensures pid.lastNow <= pass.now
      ensures old(state) == Idle && pass.restart.None? ==>
                && state == Idle && AtRest() && cost == old(cost) && !sessionOpen
                && pid == old(pid) && pid.lastNow == old(pid.lastNow) && pid.iterm == old(pid.iterm)
                && pid.lastErr == old(pid.lastErr) && pid.pidstats == old(pid.pidstats)
                && lastOutcome == old(lastOutcome)
    {
      Tick(pass.sensor, pass.now, pass.restart);
    }

    /**
     * `run`, over the passes in `passes`: one `Tick` each, at clock readings
     * that strictly increase. The oven stays Valid throughout, and an idle
     * oven that is never offered a restart stays exactly as it was.
     */
    method Run(passes: seq<Pass>)
      requires Valid()
      requires |passes| > 0 ==> pid.lastNow < passes[0].now
      requires forall i, j :: 0 <= i < j < |passes| ==> passes[i].now < passes[j].now
      requires forall i :: 0 <= i < |passes| && passes[i].restart.Some? ==>
                 Runnable(passes[i].restart.value.profile, passes[i].restart.value.runtime)
      modifies this, pid
      ensures Valid()
      ensures pid == old(pid) || fresh(pid)
      ensures |passes| > 0 ==> pid.lastNow <= passes[|passes| - 1].now
      ensures old(state) == Idle && (forall i :: 0 <= i < |passes| ==> passes[i].restart.None?) ==>
                && state == Idle && AtRest() && cost == old(cost) && !sessionOpen
                && pid == old(pid) && pid.lastNow == old(pid.lastNow) && pid.iterm == old(pid.iterm)
                && pid.lastErr == old(pid.lastErr) && pid.pidstats == old(pid.pidstats)
                && lastOutcome == old(lastOutcome)
    {
      ghost var quiet := state == Idle && forall i :: 0 <= i < |passes| ==> passes[i].restart.None?;
      var k := 0;
      while k < |passes|
        invariant 0 <= k <= |passes|
        invariant Valid()
        invariant pid == old(pid) || fresh(pid)
        invariant k == 0 ==> pid == old(pid) && pid.lastNow == old(pid.lastNow)
        invariant k > 0 ==> pid.lastNow <= passes[k - 1].now
        invariant quiet ==>
                    && state == Idle && AtRest() && cost == old(cost) && !sessionOpen
                    && pid == old(pid) && pid.lastNow == old(pid.lastNow) && pid.iterm == old(pid.iterm)
                    && pid.lastErr == old(pid.lastErr) && pid.pidstats == old(pid.pidstats)
                    && lastOutcome == old(lastOutcome)
      {
        LoopPass(passes[k]);
        k := k + 1;
      }
    }
  }

  /** The two-point schedule the session lifecycle scenarios fire. */
  const LifecycleProfile := Profile("test_profile", [Point(0.0, 70.0), Point(60.0, 100.0)])

  /** Starting a run with a healthy thermocouple opens a session and runs the whole schedule. */
  method StartScenario(cfg: Config, sensor: SensorState, now: real) returns (oven: Oven)
    requires ValidConfig(cfg) && !Faulted(sensor)
    ensures fresh(oven) && oven.Valid() && oven.state == Running && oven.sessionOpen
    ensures oven.profile == Some(LifecycleProfile) && oven.runtime == 0.0 && oven.totaltime == 60.0
  {
    assert Runnable(LifecycleProfile, 0.0);
    oven := new Oven(cfg, now);
    oven.RunProfile(LifecycleProfile, 0.0, sensor, now);
  }

  /** Aborting a started run closes its session as aborted and leaves the oven idle. */
  method AbortScenario(cfg: Config, sensor: SensorState, now: real) returns (oven: Oven)
    requires ValidConfig(cfg) && !Faulted(sensor)
    ensures oven.Valid() && oven.state == Idle && oven.AtRest()
    ensures !oven.sessionOpen && oven.lastOutcome == Some(Aborted)
  {
    oven := StartScenario(cfg, sensor, now);
    oven.AbortRun(Aborted, now);
  }

  /** A run whose schedule clock has passed the end completes and closes its session as completed. */
  method ScheduleEndScenario(cfg: Config, sensor: SensorState, now: real) returns (oven: Oven)
    requires ValidConfig(cfg) && !Faulted(sensor)
    ensures oven.Valid() && oven.state == Idle && oven.AtRest()
    ensures !oven.sessionOpen && oven.lastOutcome == Some(Completed)
  {
    oven := StartScenario(cfg, sensor, now);
    oven.runtime := oven.totaltime + 1.0;
    oven.ResetIfScheduleEnded(now);
  }
}
