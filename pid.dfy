/**
 * The heater's PID controller (lib/oven.py, class `PID`). Outside the control
 * window around the setpoint it switches fully on or off; inside it the
 * proportional, integral and derivative terms are summed, clamped to
 * [-100, 100] and scaled to a duty cycle in [0, 1].
 */
module PidControl {
  import opened Wrappers
  import Sorting

  /** Half-width of the clamp applied to the summed PID terms. */
  const WindowSize: real := 100.0

  /** What the controller records about its last step (`pidstats`). */
  datatype PidStats = PidStats(
    time: real,
    timeDelta: real,
    setpoint: real,
    ispoint: real,
    err: real,
    errDelta: real,
    p: real,
    i: real,
    d: real,
    kp: real,
    ki: real,
    kd: real,
    pid: real,
    out: real)

  /** The result of one step: the duty cycle and the controller's new memory. */
  datatype PidStep = PidStep(output: real, iterm: real, errDelta: real, out4logs: real)

  /** The reference clamp of `x` into [lo, hi]. */
  function Clamp(lo: real, x: real, hi: real): real {
    if x < lo then lo else if x > hi then hi else x
  }

  /** Inserting into a one-element list. */
  lemma InsertIntoOne(x: real, y: real)
    ensures Sorting.Insert(x, [y], Sorting.RealLe) == if x <= y then [x, y] else [y, x]
  {
    if !(x <= y) {
      assert [y][1..] == [];
    }
  }

  /** Inserting into a sorted two-element list. */
  lemma InsertIntoTwo(x: real, a: real, b: real)
    requires a <= b
    ensures Sorting.Insert(x, [a, b], Sorting.RealLe) ==
              if x <= a then [x, a, b] else if x <= b then [a, x, b] else [a, b, x]
  {
    if !(x <= a) {
      assert [a, b][1..] == [b];
      InsertIntoOne(x, b);
    }
  }

  /** Sorting three values is inserting the first into the sorted other two. */
  lemma SortOfThree(a: real, b: real, c: real)
    ensures Sorting.Sort([a, b, c], Sorting.RealLe) ==
              Sorting.Insert(a, Sorting.Insert(b, [c], Sorting.RealLe), Sorting.RealLe)
  {
    var le := Sorting.RealLe;
    assert [a, b, c][1..] == [b, c] && [b, c][1..] == [c] && [c][1..] == [];
    assert Sorting.Sort([c], le) == [c];
  }

  /**
   * `PID.compute` clamps the PID sum by taking the middle of the sorted list
   * `[-100, sum, 100]`; that middle value is exactly the clamp.
   */
  lemma MiddleIsClamp(lo: real, x: real, hi: real)
    requires lo <= hi
    ensures Sorting.Sort([lo, x, hi], Sorting.RealLe)[1] == Clamp(lo, x, hi)
  {
    SortOfThree(lo, x, hi);
    InsertIntoOne(x, hi);
    if x <= hi {
      InsertIntoTwo(lo, x, hi);
    } else {
      InsertIntoTwo(lo, hi, x);
    }
  }

  /** The error is inside the control window, where the PID terms are used. */
  predicate InWindow(error: real, window: real) {
    !(error < -window) && !(error > window)
  }

  /**
   * One controller step for `error` = setpoint − measured temperature, with
   * `timeDelta` seconds since the last step: off below the window, full on
   * above it, and otherwise the clamped and scaled PID sum, never negative.
   */
  function Step(kp: real, ki: real, kd: real, window: real,
                iterm: real, lastErr: real, timeDelta: real, error: real): (r: PidStep)
    requires InWindow(error, window) ==> ki != 0.0 && timeDelta != 0.0
    ensures 0.0 <= r.output <= 1.0
    ensures error < -window ==> r.output == 0.0 && r.iterm == iterm
    ensures !(error < -window) && error > window ==> r.output == 1.0 && r.iterm == iterm
    ensures InWindow(error, window) ==>
              && r.iterm == iterm + error * timeDelta / ki
              && r.errDelta == (error - lastErr) / timeDelta
              && r.out4logs == Clamp(-WindowSize, kp * error + r.iterm + kd * r.errDelta, WindowSize)
              && r.output == (if r.out4logs < 0.0 then 0.0 else r.out4logs / WindowSize)
  {
    if error < -window then PidStep(0.0, iterm, 0.0, 0.0)
    else if error > window then PidStep(1.0, iterm, 0.0, 0.0)
    else
      var newIterm := iterm + error * timeDelta * (1.0 / ki);
      var dErr := (error - lastErr) / timeDelta;
      // `compute`'s `sorted([-100, sum, 100])[1]`, which MiddleIsClamp shows is the clamp
      var clamped := Clamp(-WindowSize, kp * error + newIterm + kd * dErr, WindowSize);
      var output := clamped / WindowSize;
      PidStep(if output < 0.0 then 0.0 else output, newIterm, dErr, clamped)
  }

  /**
   * Inside the window the duty cycle is the PID sum over 100, cut to [0, 1]:
   * 0 when the sum is not positive and 1 when it reaches 100.
   */
  lemma DutyCycleOfSum(kp: real, ki: real, kd: real, window: real,
                       iterm: real, lastErr: real, timeDelta: real, error: real)
    requires InWindow(error, window) && ki != 0.0 && timeDelta != 0.0
    ensures var r := Step(kp, ki, kd, window, iterm, lastErr, timeDelta, error);
            var sum := kp * error + r.iterm + kd * r.errDelta;
            && r.output == Clamp(0.0, sum / WindowSize, 1.0)
            && (sum <= 0.0 ==> r.output == 0.0)
            && (sum >= WindowSize ==> r.output == 1.0)
  {
  }

  /** The figures `compute` records about a step taken at clock time `now`. */
  function Stats(kp: real, ki: real, kd: real, now: real, timeDelta: real,
                 setpoint: real, ispoint: real, r: PidStep): PidStats
  {
    var error := setpoint - ispoint;
    PidStats(now, timeDelta, setpoint, ispoint, error, r.errDelta, kp * error, r.iterm,
             kd * r.errDelta, kp, ki, kd, r.out4logs, r.output)
  }

  /** The controller object; `lastNow`, `iterm`, `lastErr` and `pidstats` change on every step. */
  class Pid {
    const kp: real
    const ki: real
    const kd: real
    var lastNow: real
    var iterm: real
    var lastErr: real
    var pidstats: Option<PidStats>

    /** A controller created at clock time `now`, with no integral and no last error. */
    constructor(ki: real, kp: real, kd: real, now: real)
      ensures this.ki == ki && this.kp == kp && this.kd == kd
      ensures lastNow == now && iterm == 0.0 && lastErr == 0.0 && pidstats == None
    {
      this.ki, this.kp, this.kd := ki, kp, kd;
      lastNow, iterm, lastErr, pidstats := now, 0.0, 0.0, None;
    }

    /**
     * `compute` at clock time `now`: the step's duty cycle, with the integral
     * term advanced as the step says, the error and the time remembered for
     * the next call, and the step's figures recorded.
     */
    method Compute(setpoint: real, ispoint: real, now: real, window: real) returns (output: real)
      requires InWindow(setpoint - ispoint, window) ==> ki != 0.0 && now - lastNow != 0.0
      modifies this
      ensures output == Step(kp, ki, kd, window, old(iterm), old(lastErr), now - old(lastNow), setpoint - ispoint).output
      ensures iterm == Step(kp, ki, kd, window, old(iterm), old(lastErr), now - old(lastNow), setpoint - ispoint).iterm
      ensures var r := Step(kp, ki, kd, window, old(iterm), old(lastErr), now - old(lastNow), setpoint - ispoint);
              pidstats == Some(Stats(kp, ki, kd, now, now - old(lastNow), setpoint, ispoint, r))
      ensures 0.0 <= output <= 1.0
      ensures lastErr == setpoint - ispoint && lastNow == now
    {
      var timeDelta := now - lastNow;
      var error := setpoint - ispoint;
      var r := Step(kp, ki, kd, window, iterm, lastErr, timeDelta, error);
      iterm := r.iterm;
      lastErr := error;
      lastNow := now;
      output := r.output;
      pidstats := Some(Stats(kp, ki, kd, now, timeDelta, setpoint, ispoint, r));
    }
  }
}
