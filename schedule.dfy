/**
 * The firing schedule (`Profile`, lib/oven.py): a list of (time, temperature)
 * points sorted on construction, with piecewise-linear lookup and the search
 * for the time at which the schedule reaches a temperature.
 */
module Schedule {
  import opened Wrappers
  import Sorting
  import opened RealArith

  datatype Point = Point(time: real, temp: real)
  datatype Profile = Profile(name: string, data: seq<Point>)

  /** Python's order on [time, temperature] pairs: lexicographic. */
  predicate PointLe(a: Point, b: Point) {
    a.time < b.time || (a.time == b.time && a.temp <= b.temp)
  }

  ghost predicate TimesSorted(s: seq<Point>) {
    forall i, j :: 0 <= i < j < |s| ==> s[i].time <= s[j].time
  }

  ghost predicate TimesStrictlyIncreasing(s: seq<Point>) {
    forall i, j :: 0 <= i < j < |s| ==> s[i].time < s[j].time
  }

  /** What every lookup needs: a non-empty point list in time order. */
  ghost predicate ValidProfile(p: Profile) {
    |p.data| > 0 && TimesSorted(p.data)
  }

  /** A valid profile whose points all have distinct times. */
  ghost predicate DistinctTimes(p: Profile) {
    ValidProfile(p) && TimesStrictlyIncreasing(p.data)
  }

  function First(p: Profile): Point
    requires |p.data| > 0
  {
    p.data[0]
  }

  function Last(p: Profile): Point
    requires |p.data| > 0
  {
    p.data[|p.data| - 1]
  }

  function Start(p: Profile): real
    requires |p.data| > 0
  {
    p.data[0].time
  }

  lemma PointLeIsTotalPreorder()
    ensures Sorting.TotalPreorder(PointLe)
  {
  }

  lemma {:induction false} LexSortedIsTimeSorted(s: seq<Point>)
    requires Sorting.SortedBy(s, PointLe)
    ensures TimesSorted(s)
  {
    forall i, j | 0 <= i < j < |s|
      ensures s[i].time <= s[j].time
    {
      assert PointLe(s[i], s[j]);
    }
  }

  /** `Profile.__init__` after JSON decoding: the points are sorted. */
  function NewProfile(name: string, raw: seq<Point>): (p: Profile)
    ensures p.name == name
    ensures multiset(p.data) == multiset(raw)
    ensures Sorting.SortedBy(p.data, PointLe) && TimesSorted(p.data)
    ensures |raw| > 0 ==> ValidProfile(p)
  {
    PointLeIsTotalPreorder();
    Sorting.SortSorted(raw, PointLe);
    LexSortedIsTimeSorted(Sorting.Sort(raw, PointLe));
    Profile(name, Sorting.Sort(raw, PointLe))
  }

  /** The largest time in a non-empty point list (Python's `max`). */
  function MaxTime(s: seq<Point>): (m: real)
    requires |s| > 0
    ensures forall i :: 0 <= i < |s| ==> s[i].time <= m
    ensures exists i :: 0 <= i < |s| && s[i].time == m
  {
    if |s| == 1 then s[0].time
    else
      var rest := MaxTime(s[1..]);
      assert forall i :: 1 <= i < |s| ==> s[i] == s[1..][i - 1];
      if s[0].time >= rest then s[0].time else rest
  }

  /** `get_duration`. */
  function Duration(p: Profile): real
    requires |p.data| > 0
  {
    MaxTime(p.data)
  }

  /** For a sorted profile the duration is the time of the last point. */
  lemma DurationIsLastTime(p: Profile)
    requires ValidProfile(p)
    ensures Duration(p) == Last(p).time
    ensures forall i :: 0 <= i < |p.data| ==> p.data[i].time <= Duration(p)
  {
    var i :| 0 <= i < |p.data| && p.data[i].time == Duration(p);
    assert p.data[i].time <= Last(p).time;
  }

  /** The loop of `get_surrounding_points`: the first index from `i` on whose time exceeds `t`. */
  function FirstLater(s: seq<Point>, t: real, i: nat): (r: Option<nat>)
    requires i <= |s|
    ensures r.Some? ==> i <= r.value < |s| && t < s[r.value].time
    ensures r.Some? ==> forall k :: i <= k < r.value ==> s[k].time <= t
    ensures r.None? ==> forall k :: i <= k < |s| ==> s[k].time <= t
    decreases |s| - i
  {
    if i == |s| then None
    else if t < s[i].time then Some(i)
    else FirstLater(s, t, i + 1)
  }

  /**
   * `get_surrounding_points`: the points on either side of `t`. An index of 0
   * takes its predecessor from the end of the list (Python's `data[-1]`).
   */
  function SurroundingPoints(p: Profile, t: real): (r: Option<(Point, Point)>)
    requires ValidProfile(p)
    ensures t >= Duration(p) ==> r.None?
    ensures t < Start(p) ==> r == Some((Last(p), First(p)))
    ensures Start(p) <= t < Duration(p) ==>
              && r.Some?
              && r.value.0.time <= t < r.value.1.time
              && exists j :: 1 <= j < |p.data| && r.value == (p.data[j - 1], p.data[j])
  {
    DurationIsLastTime(p);
    if t > Duration(p) then None
    else
      match FirstLater(p.data, t, 0)
      case None => None
      case Some(i) => Some((if i == 0 then Last(p) else p.data[i - 1], p.data[i]))
  }

  /** The slope `incl` of the segment from `a` to `b`. */
  function Slope(a: Point, b: Point): real
    requires a.time != b.time
  {
    (b.temp - a.temp) / (b.time - a.time)
  }

  /** The straight line through `a` and `b`, evaluated at `t`. */
  function Interpolate(a: Point, b: Point, t: real): (r: real)
    requires a.time != b.time
    ensures t == a.time ==> r == a.temp
    ensures t == b.time ==> r == b.temp
  {
    a.temp + (t - a.time) * Slope(a, b)
  }

  /**
   * `get_target_temperature` as written: `None` marks the two inputs on which
   * it raises. At exactly the duration no point lies after `t`, so the pair
   * is `(None, None)` and subscripting it fails; before the first point
   * the wrap-around pair has a zero time span when the first and last times
   * coincide.
   */
  function TargetTemperatureAsWritten(p: Profile, t: real): (r: Option<real>)
    requires ValidProfile(p)
    ensures r.None? <==> t == Duration(p) || (t < Start(p) && Start(p) == Duration(p))
    ensures t > Duration(p) ==> r == Some(0.0)
  {
    DurationIsLastTime(p);
    if t > Duration(p) then Some(0.0)
    else
      match SurroundingPoints(p, t)
      case None => None
      case Some((prev, next)) =>
        if next.time == prev.time then None else Some(Interpolate(prev, next, t))
  }

  /**
   * `get_target_temperature`, corrected at `t == Duration(p)` to give the last
   * point's temperature, the value the last segment reaches there.
   */
  function TargetTemperature(p: Profile, t: real): (r: real)
    requires ValidProfile(p)
    requires t < Start(p) ==> Start(p) < Duration(p)
    ensures t > Duration(p) ==> r == 0.0
    ensures t == Duration(p) ==> r == Last(p).temp
    ensures t < Start(p) ==> r == Interpolate(Last(p), First(p), t)
    ensures Start(p) <= t < Duration(p) ==>
              exists j :: 1 <= j < |p.data| && p.data[j - 1].time <= t < p.data[j].time
                          && r == Interpolate(p.data[j - 1], p.data[j], t)
  {
    DurationIsLastTime(p);
    if t > Duration(p) then 0.0
    else
      match SurroundingPoints(p, t)
      case None => Last(p).temp
      case Some((prev, next)) => Interpolate(prev, next, t)
  }

  /** Away from the duration, the corrected lookup is `get_target_temperature`'s. */
  lemma AsWrittenAgreesOffDuration(p: Profile, t: real)
    requires ValidProfile(p)
    requires t != Duration(p)
    requires t < Start(p) ==> Start(p) < Duration(p)
    ensures TargetTemperatureAsWritten(p, t) == Some(TargetTemperature(p, t))
  {
  }

  /** The schedule's first test profile shows the crash at its own last time. */
  lemma LastPointLookupFails()
    ensures TargetTemperatureAsWritten(Profile("test_profile", [Point(0.0, 70.0), Point(60.0, 100.0)]), 60.0).None?
  {
    var p := Profile("test_profile", [Point(0.0, 70.0), Point(60.0, 100.0)]);
    assert ValidProfile(p);
    DurationIsLastTime(p);
  }

  /** The search of `get_surrounding_points` stops at the point that ends the segment holding `t`. */
  lemma {:induction false} FirstLaterAt(s: seq<Point>, t: real, i: nat, j: nat)
    requires TimesSorted(s)
    requires i <= j < |s| && 1 <= j
    requires s[j - 1].time <= t < s[j].time
    ensures FirstLater(s, t, i) == Some(j)
    decreases j - i
  {
    if i < j {
      assert s[i].time <= s[j - 1].time;
      FirstLaterAt(s, t, i + 1, j);
    }
  }

  /** Inside the segment that ends at point `j`, the target is that segment's line. */
  lemma TargetInSegment(p: Profile, j: int, t: real)
    requires ValidProfile(p)
    requires 1 <= j < |p.data|
    requires p.data[j - 1].time <= t < p.data[j].time
    ensures p.data[j - 1].time != p.data[j].time
    ensures TargetTemperature(p, t) == Interpolate(p.data[j - 1], p.data[j], t)
  {
    DurationIsLastTime(p);
    FirstLaterAt(p.data, t, 0, j);
    assert SurroundingPoints(p, t) == Some((p.data[j - 1], p.data[j]));
  }

  /** With distinct times the schedule passes through every one of its points. */
  lemma TargetAtPoint(p: Profile, j: int)
    requires DistinctTimes(p)
    requires 0 <= j < |p.data|
    ensures TargetTemperature(p, p.data[j].time) == p.data[j].temp
  {
    DurationIsLastTime(p);
    if j < |p.data| - 1 {
      assert p.data[j + 1].time <= Duration(p);
      TargetInSegment(p, j + 1, p.data[j].time);
    }
  }

  /** The line moves in one direction: between two times it stays below the larger end value. */
  lemma LineBetween(a: Point, b: Point, x: real, y: real, t: real)
    requires a.time != b.time
    requires x <= t <= y
    ensures Interpolate(a, b, t) <= Interpolate(a, b, x) || Interpolate(a, b, t) <= Interpolate(a, b, y)
  {
    var k := Slope(a, b);
    LineDifference(a, b, t, y);
    LineDifference(a, b, x, t);
    if k >= 0.0 {
      ProductNonNegative(y - t, k);
    } else {
      ProductNonNegative(t - x, -k);
    }
  }

  /** The line keeps the slope between any two of its own points. */
  lemma LineDifference(a: Point, b: Point, x: real, y: real)
    requires a.time != b.time
    ensures Interpolate(a, b, y) - Interpolate(a, b, x) == (y - x) * Slope(a, b)
  {
  }

  /**
   * The time at which the line from (`startTime`, `startTemp`) to `segEnd`
   * reaches `target`, by the formula of `find_time_for_temperature`.
   */
  function CrossingTime(startTime: real, startTemp: real, segEnd: Point, target: real): (r: real)
    requires startTime <= segEnd.time
    requires startTemp < target <= segEnd.temp
    ensures startTime <= r <= segEnd.time
    ensures startTime < segEnd.time ==> startTime < r
  {
    var tempSpan := segEnd.temp - startTemp;
    var timeSpan := segEnd.time - startTime;
    var fraction := (target - startTemp) / tempSpan;
    RatioInUnit(target - startTemp, tempSpan);
    ScaledWithin(fraction, timeSpan);
    startTime + fraction * timeSpan
  }

  /**
   * The loop of `find_time_for_temperature` from segment `i` (the segment
   * ending at point `i`) on.
   */
  function FindInSegments(p: Profile, target: real, from: real, i: nat): (r: Option<real>)
    requires ValidProfile(p)
    requires 1 <= i <= |p.data|
    ensures r.Some? ==> from <= r.value <= Duration(p)
    decreases |p.data| - i
  {
    if i == |p.data| then None
    else
      var segStart := p.data[i - 1];
      var segEnd := p.data[i];
      if segEnd.time <= from then FindInSegments(p, target, from, i + 1)
      else
        assert segEnd.time <= Duration(p);
        assert Start(p) <= segStart.time;
        var startTime := if from > segStart.time then from else segStart.time;
        var startTemp := if from > segStart.time then TargetTemperature(p, from) else segStart.temp;
        if segEnd.temp >= target then
          if startTemp >= target then Some(startTime)
          else
            var tempSpan := segEnd.temp - startTemp;
            if tempSpan <= 0.0 then FindInSegments(p, target, from, i + 1)
            else Some(CrossingTime(startTime, startTemp, segEnd, target))
        else FindInSegments(p, target, from, i + 1)
  }

  /** `find_time_for_temperature(target_temp, from_time)`. */
  function FindTimeForTemperature(p: Profile, target: real, from: real): (r: Option<real>)
    requires ValidProfile(p)
    requires from < Start(p) ==> Start(p) < Duration(p)
    ensures from >= Duration(p) ==> r.None?
    ensures from < Duration(p) && TargetTemperature(p, from) >= target ==> r == Some(from)
    ensures r.Some? ==> from <= r.value <= Duration(p)
  {
    if from >= Duration(p) then None
    else if TargetTemperature(p, from) >= target then Some(from)
    else FindInSegments(p, target, from, 1)
  }

  /**
   * The crossing in one segment: from a start `st` below `target` to the
   * segment end at or above it, the formula of `find_time_for_temperature`
   * gives the time at which the segment's line equals `target`, and the line
   * is below `target` before it.
   */
  lemma Crossing(a: Point, b: Point, st: real, target: real)
    requires a.time < b.time
    requires a.time <= st < b.time
    requires Interpolate(a, b, st) < target <= b.temp
    ensures var r := CrossingTime(st, Interpolate(a, b, st), b, target);
            && Interpolate(a, b, r) == target
            && forall t :: st <= t < r ==> Interpolate(a, b, t) < target
  {
    var stemp := Interpolate(a, b, st);
    var k := Slope(a, b);
    var span := b.temp - stemp;
    var width := b.time - st;
    LineDifference(a, b, st, b.time);
    assert span == width * k;
    assert k > 0.0;
    var q := (target - stemp) / span;
    var r := st + q * width;
    assert r == CrossingTime(st, stemp, b, target);
    LineDifference(a, b, st, r);
    assert Interpolate(a, b, r) - stemp == q * width * k;
    assert q * width * k == q * span;
    assert q * span == target - stemp;
    assert Interpolate(a, b, r) == target;
    forall t | st <= t < r
      ensures Interpolate(a, b, t) < target
    {
      LineDifference(a, b, t, r);
      ProductPositive(r - t, k);
      assert Interpolate(a, b, r) - Interpolate(a, b, t) == (r - t) * k;
    }
  }

  /** With distinct times, the whole closed segment ending at point `i` lies on its line. */
  lemma SegmentOnLine(p: Profile, i: int)
    requires DistinctTimes(p)
    requires 1 <= i < |p.data|
    ensures p.data[i - 1].time < p.data[i].time
    ensures forall t :: p.data[i - 1].time <= t <= p.data[i].time ==>
              TargetTemperature(p, t) == Interpolate(p.data[i - 1], p.data[i], t)
  {
    forall t | p.data[i - 1].time <= t <= p.data[i].time
      ensures TargetTemperature(p, t) == Interpolate(p.data[i - 1], p.data[i], t)
    {
      if t < p.data[i].time {
        TargetInSegment(p, i, t);
      } else {
        TargetAtPoint(p, i);
      }
    }
  }

  /** The hypotheses under which the search of segment `i` is correct. */
  ghost predicate SearchFrom(p: Profile, target: real, from: real, i: int)
  {
    && DistinctTimes(p)
    && 1 <= i <= |p.data|
    && Start(p) <= from < Duration(p)
    && TargetTemperature(p, from) < target
    && forall t :: from <= t <= p.data[i - 1].time ==> TargetTemperature(p, t) < target
  }

  /** The segment ending at point `i` starts, for the search, at a time below `target`. */
  lemma SegmentStartBelow(p: Profile, target: real, from: real, i: int)
    requires SearchFrom(p, target, from, i)
    requires i < |p.data| && from < p.data[i].time
    ensures var a, b := p.data[i - 1], p.data[i];
            var st := if from > a.time then from else a.time;
            && a.time <= st < b.time
            && (if from > a.time then TargetTemperature(p, from) else a.temp) == Interpolate(a, b, st)
            && Interpolate(a, b, st) < target
  {
    SegmentOnLine(p, i);
    if from <= p.data[i - 1].time {
      assert TargetTemperature(p, p.data[i - 1].time) < target;
    }
  }

  /** A segment whose end reaches `target` holds the answer. */
  lemma SegmentReaches(p: Profile, target: real, from: real, i: int)
    requires SearchFrom(p, target, from, i)
    requires i < |p.data| && from < p.data[i].time && p.data[i].temp >= target
    ensures match FindInSegments(p, target, from, i)
            case Some(r) =>
              && from < r <= Duration(p)
              && TargetTemperature(p, r) == target
              && forall t :: from <= t < r ==> TargetTemperature(p, t) < target
            case None => false
  {
    var a, b := p.data[i - 1], p.data[i];
    var st := if from > a.time then from else a.time;
    SegmentStartBelow(p, target, from, i);
    SegmentOnLine(p, i);
    Crossing(a, b, st, target);
    var r := CrossingTime(st, Interpolate(a, b, st), b, target);
    assert FindInSegments(p, target, from, i) == Some(r);
    DurationIsLastTime(p);
    BelowUntil(p, target, from, i, a, b, st, r);
  }

  /** Below the segment's line up to `r`, the target stays below `target` from `from` up to `r`. */
  lemma BelowUntil(p: Profile, target: real, from: real, i: int, a: Point, b: Point, st: real, r: real)
    requires SearchFrom(p, target, from, i)
    requires i < |p.data| && a == p.data[i - 1] && b == p.data[i]
    requires st == (if from > a.time then from else a.time) && r <= b.time
    requires forall t :: st <= t < r ==> Interpolate(a, b, t) < target
    ensures forall t :: from <= t < r ==> TargetTemperature(p, t) < target
  {
    SegmentOnLine(p, i);
    forall t | from <= t < r
      ensures TargetTemperature(p, t) < target
    {
      if t > a.time {
        assert Interpolate(a, b, t) < target;
      }
    }
  }

  /** A segment that ends below `target` stays below it, and the search moves on. */
  lemma SegmentStaysBelow(p: Profile, target: real, from: real, i: int)
    requires SearchFrom(p, target, from, i)
    requires i < |p.data| && from < p.data[i].time && p.data[i].temp < target
    ensures SearchFrom(p, target, from, i + 1)
    ensures FindInSegments(p, target, from, i) == FindInSegments(p, target, from, i + 1)
  {
    var a, b := p.data[i - 1], p.data[i];
    var st := if from > a.time then from else a.time;
    SegmentStartBelow(p, target, from, i);
    SegmentOnLine(p, i);
    forall t | from <= t <= b.time
      ensures TargetTemperature(p, t) < target
    {
      if t > a.time {
        LineBetween(a, b, st, b.time, t);
      }
    }
  }

  /** A segment that ends at or before `from` is passed over, and the search moves on. */
  lemma SegmentBeforeFrom(p: Profile, target: real, from: real, i: int)
    requires SearchFrom(p, target, from, i)
    requires i < |p.data| && p.data[i].time <= from
    ensures SearchFrom(p, target, from, i + 1)
    ensures FindInSegments(p, target, from, i) == FindInSegments(p, target, from, i + 1)
  {
    forall t | from <= t <= p.data[i].time
      ensures TargetTemperature(p, t) < target
    {
      assert t == from;
    }
  }

  /**
   * The search from segment `i` on, for a start time `from` at which the
   * schedule is below `target` and with every time from `from` to point
   * `i - 1` below it: a result is where the schedule first reaches `target`;
   * no result means it never does up to the duration.
   */
  lemma {:induction false} SegmentSearchCorrect(p: Profile, target: real, from: real, i: nat)
    requires SearchFrom(p, target, from, i)
    ensures match FindInSegments(p, target, from, i)
            case Some(r) =>
              && from < r <= Duration(p)
              && TargetTemperature(p, r) == target
              && forall t :: from <= t < r ==> TargetTemperature(p, t) < target
            case None =>
              forall t :: from <= t <= Duration(p) ==> TargetTemperature(p, t) < target
    decreases |p.data| - i
  {
    DurationIsLastTime(p);
    if i < |p.data| {
      if p.data[i].time <= from {
        SegmentBeforeFrom(p, target, from, i);
        SegmentSearchCorrect(p, target, from, i + 1);
      } else if p.data[i].temp >= target {
        SegmentReaches(p, target, from, i);
      } else {
        SegmentStaysBelow(p, target, from, i);
        SegmentSearchCorrect(p, target, from, i + 1);
      }
    }
  }

  /**
   * The promise of `find_time_for_temperature`'s documentation: for a start
   * time inside the schedule, the result is the earliest time at or after it
   * at which the schedule reaches `target`, and `None` means it never does.
   */
  lemma FindTimeIsEarliest(p: Profile, target: real, from: real)
    requires DistinctTimes(p)
    requires Start(p) <= from < Duration(p)
    ensures match FindTimeForTemperature(p, target, from)
            case Some(r) =>
              && from <= r <= Duration(p)
              && TargetTemperature(p, r) >= target
              && (r != from ==> TargetTemperature(p, r) == target)
              && forall t :: from <= t < r ==> TargetTemperature(p, t) < target
            case None =>
              forall t :: from <= t <= Duration(p) ==> TargetTemperature(p, t) < target
  {
    if TargetTemperature(p, from) < target {
      forall t | from <= t <= p.data[0].time
        ensures TargetTemperature(p, t) < target
      {
        assert t == from;
      }
      SegmentSearchCorrect(p, target, from, 1);
    }
  }
}
