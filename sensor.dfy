/**
 * Sensor post-processing (lib/oven.py): the thermocouple correction table,
 * the trimmed mean of recent samples, and one pass of the sampling loop of
 * `TempSensorReal`.
 */
module Sensor {
  import opened Settings
  import Sorting
  import opened RealArith

  // ---------------------------------------------------------------------------
  // Correction table

  /** The table's own interpolation between rows `i - 1` and `i`. */
  function RowInterpolate(lo: Correction, hi: Correction, raw: real): real
    requires lo.temp != hi.temp
  {
    lo.offset + (hi.offset - lo.offset) * (raw - lo.temp) / (hi.temp - lo.temp)
  }

  /** For a reading strictly above `lo.temp` and up to `hi.temp`, the offset lies between the two rows' offsets. */
  lemma RowInterpolateBetween(lo: Correction, hi: Correction, raw: real)
    requires lo.temp < raw <= hi.temp
    ensures lo.offset <= hi.offset ==> lo.offset <= RowInterpolate(lo, hi, raw) <= hi.offset
    ensures hi.offset <= lo.offset ==> hi.offset <= RowInterpolate(lo, hi, raw) <= lo.offset
  {
    var q := (raw - lo.temp) / (hi.temp - lo.temp);
    RatioInUnit(raw - lo.temp, hi.temp - lo.temp);
    var d := hi.offset - lo.offset;
    MulDiv(d, raw - lo.temp, hi.temp - lo.temp);
    assert RowInterpolate(lo, hi, raw) == lo.offset + d * q;
    ScaleBetween(d, q);
  }

  /** At the upper row's own temperature the interpolation gives that row's offset. */
  lemma RowInterpolateAtTop(lo: Correction, hi: Correction)
    requires lo.temp != hi.temp
    ensures RowInterpolate(lo, hi, hi.temp) == hi.offset
  {
    var d := hi.offset - lo.offset;
    MulDiv(d, hi.temp - lo.temp, hi.temp - lo.temp);
    assert (hi.temp - lo.temp) / (hi.temp - lo.temp) == 1.0;
  }

  /**
   * The loop of `get_thermocouple_offset` from row `i` on, for a reading above
   * every row temperature before `i`; past the last row it gives the last offset.
   */
  function OffsetSearch(table: seq<Correction>, raw: real, i: nat): (r: real)
    requires 1 <= i <= |table|
    requires forall k :: 0 <= k < i ==> table[k].temp < raw
    ensures exists k :: 0 <= k < |table| && table[k].offset <= r
    ensures exists k :: 0 <= k < |table| && r <= table[k].offset
    decreases |table| - i
  {
    if i == |table| then table[|table| - 1].offset
    else if raw <= table[i].temp then
      RowInterpolateBetween(table[i - 1], table[i], raw);
      RowInterpolate(table[i - 1], table[i], raw)
    else OffsetSearch(table, raw, i + 1)
  }

  /**
   * `get_thermocouple_offset`: the flat offset without a table, the end rows'
   * offsets outside the table's range, and the table's interpolation inside it.
   * With a table, the offset is never below the smallest nor above the largest
   * offset in it.
   */
  function ThermocoupleOffset(cfg: Config, raw: real): (r: real)
    ensures cfg.correctionTable == [] ==> r == cfg.thermocoupleOffset
    ensures cfg.correctionTable != [] && raw <= cfg.correctionTable[0].temp ==>
              r == cfg.correctionTable[0].offset
    ensures cfg.correctionTable != [] && cfg.correctionTable[0].temp < raw
            && raw >= cfg.correctionTable[|cfg.correctionTable| - 1].temp ==>
              r == cfg.correctionTable[|cfg.correctionTable| - 1].offset
    ensures cfg.correctionTable != [] ==>
              && (exists k :: 0 <= k < |cfg.correctionTable| && cfg.correctionTable[k].offset <= r)
              && (exists k :: 0 <= k < |cfg.correctionTable| && r <= cfg.correctionTable[k].offset)
  {
    var table := cfg.correctionTable;
    if table == [] then cfg.thermocoupleOffset
    else if raw <= table[0].temp then table[0].offset
    else if raw >= table[|table| - 1].temp then table[|table| - 1].offset
    else OffsetSearch(table, raw, 1)
  }

  ghost predicate TempsStrictlyIncreasing(table: seq<Correction>) {
    forall i, j :: 0 <= i < j < |table| ==> table[i].temp < table[j].temp
  }

  /** The search lands on the row pair around the reading. */
  lemma {:induction false} OffsetSearchAt(table: seq<Correction>, raw: real, i: nat, j: nat)
    requires TempsStrictlyIncreasing(table)
    requires 1 <= i <= j < |table|
    requires table[j - 1].temp < raw <= table[j].temp
    requires forall k :: 0 <= k < i ==> table[k].temp < raw
    ensures OffsetSearch(table, raw, i) == RowInterpolate(table[j - 1], table[j], raw)
    decreases j - i
  {
    if i < j {
      assert table[i].temp <= table[j - 1].temp;
      OffsetSearchAt(table, raw, i + 1, j);
    }
  }

  /**
   * For a table in increasing temperature order, a reading between two
   * adjacent rows gets the straight-line offset between them.
   */
  lemma OffsetInterpolates(cfg: Config, raw: real, j: nat)
    requires TempsStrictlyIncreasing(cfg.correctionTable)
    requires 1 <= j < |cfg.correctionTable|
    requires cfg.correctionTable[j - 1].temp < raw <= cfg.correctionTable[j].temp
    ensures ThermocoupleOffset(cfg, raw) ==
              RowInterpolate(cfg.correctionTable[j - 1], cfg.correctionTable[j], raw)
  {
    var table := cfg.correctionTable;
    var n := |table|;
    assert table[0].temp <= table[j - 1].temp;
    if raw >= table[n - 1].temp {
      assert j == n - 1 && raw == table[j].temp;
      RowInterpolateAtTop(table[j - 1], table[j]);
    } else {
      OffsetSearchAt(table, raw, 1, j);
    }
  }

  // ---------------------------------------------------------------------------
  // Trimmed mean

  function Sum(s: seq<real>): real {
    if s == [] then 0.0 else s[0] + Sum(s[1..])
  }

  /** A sum of values within [lo, hi] lies within its count times those bounds. */
  lemma {:induction false} SumBounds(s: seq<real>, lo: real, hi: real)
    requires forall i :: 0 <= i < |s| ==> lo <= s[i] <= hi
    ensures (|s| as real) * lo <= Sum(s) <= (|s| as real) * hi
  {
    if s != [] {
      SumBounds(s[1..], lo, hi);
    }
  }

  function SeqMin(s: seq<real>): (m: real)
    requires |s| > 0
    ensures forall i :: 0 <= i < |s| ==> m <= s[i]
    ensures m in s
  {
    if |s| == 1 then s[0]
    else
      var rest := SeqMin(s[1..]);
      assert forall i :: 1 <= i < |s| ==> s[i] == s[1..][i - 1];
      if s[0] <= rest then s[0] else rest
  }

  function SeqMax(s: seq<real>): (m: real)
    requires |s| > 0
    ensures forall i :: 0 <= i < |s| ==> s[i] <= m
    ensures m in s
  {
    if |s| == 1 then s[0]
    else
      var rest := SeqMax(s[1..]);
      assert forall i :: 1 <= i < |s| ==> s[i] == s[1..][i - 1];
      if s[0] >= rest then s[0] else rest
  }

  /**
   * The samples `get_avg_temp` keeps: the sorted list without its lowest and
   * highest quarter (`int(total * 0.25)` values at each end). The kept part is
   * never empty and is drawn from the input.
   */
  function TrimmedSamples(temps: seq<real>): (kept: seq<real>)
    requires |temps| > 0
    ensures |kept| == |temps| - 2 * (|temps| / 4)
    ensures |kept| > 0
    ensures multiset(kept) <= multiset(temps)
  {
    var sorted := Sorting.Sort(temps, Sorting.RealLe);
    var total := |sorted|;
    var items := total / 4;
    assert sorted == sorted[..items] + sorted[items .. total - items] + sorted[total - items..];
    sorted[items .. total - items]
  }

  /** The samples `get_avg_temp` drops from the low end of the sorted list. */
  function DroppedLow(temps: seq<real>): seq<real> {
    var sorted := Sorting.Sort(temps, Sorting.RealLe);
    sorted[..|sorted| / 4]
  }

  /** The samples `get_avg_temp` drops from the high end of the sorted list. */
  function DroppedHigh(temps: seq<real>): seq<real> {
    var sorted := Sorting.Sort(temps, Sorting.RealLe);
    sorted[|sorted| - |sorted| / 4..]
  }

  ghost predicate Ascending(s: seq<real>) {
    forall i, j :: 0 <= i < j < |s| ==> s[i] <= s[j]
  }

  /** Sorting samples by `Sorting.RealLe` puts them in ascending order. */
  lemma SortedSamplesAscend(temps: seq<real>)
    ensures Ascending(Sorting.Sort(temps, Sorting.RealLe))
  {
    Sorting.RealLeIsTotalPreorder();
    Sorting.SortSorted(temps, Sorting.RealLe);
    var s := Sorting.Sort(temps, Sorting.RealLe);
    forall i, j | 0 <= i < j < |s|
      ensures s[i] <= s[j]
    {
      assert Sorting.RealLe(s[i], s[j]);
    }
  }

  /** Every value of `a` is at most every value of `b`. */
  ghost predicate AllLe(a: seq<real>, b: seq<real>) {
    forall i, j :: 0 <= i < |a| && 0 <= j < |b| ==> a[i] <= b[j]
  }

  /** In an ascending list, a slice that ends where another begins holds no larger value. */
  lemma SlicesOrdered(s: seq<real>, a1: nat, a2: nat, b1: nat, b2: nat)
    requires a1 <= a2 <= b1 <= b2 <= |s|
    requires Ascending(s)
    ensures AllLe(s[a1..a2], s[b1..b2])
  {
    forall i, j | 0 <= i < a2 - a1 && 0 <= j < b2 - b1
      ensures s[a1..a2][i] <= s[b1..b2][j]
    {
      assert s[a1..a2][i] == s[a1 + i] && s[b1..b2][j] == s[b1 + j];
    }
  }

  /** Cutting `k` values off each end splits a list into three parts that make up its multiset. */
  lemma ThreePartsMultiset(s: seq<real>, k: nat)
    requires 2 * k <= |s|
    ensures multiset(s[..k]) + multiset(s[k .. |s| - k]) + multiset(s[|s| - k..]) == multiset(s)
  {
    assert s == s[..k] + s[k .. |s| - k] + s[|s| - k..];
  }

  /** In an ascending list, each of the three parts holds no larger value than the next. */
  lemma ThreePartsOrdered(s: seq<real>, k: nat)
    requires 2 * k <= |s|
    requires Ascending(s)
    ensures AllLe(s[..k], s[k .. |s| - k])
    ensures AllLe(s[k .. |s| - k], s[|s| - k..])
  {
    SlicesOrdered(s, 0, k, k, |s| - k);
    SlicesOrdered(s, k, |s| - k, |s| - k, |s|);
    assert s[..k] == s[0..k] && s[|s| - k..] == s[|s| - k .. |s|];
  }

  /**
   * The kept samples are the middle of the input: a quarter (rounded down) is
   * dropped at each end, every dropped low sample is at most every kept one,
   * and every kept sample is at most every dropped high one.
   */
  lemma TrimmedIsMiddle(temps: seq<real>)
    requires |temps| > 0
    ensures var low, kept, high := DroppedLow(temps), TrimmedSamples(temps), DroppedHigh(temps);
            && |low| == |high| == |temps| / 4
            && multiset(low) + multiset(kept) + multiset(high) == multiset(temps)
            && AllLe(low, kept)
            && AllLe(kept, high)
  {
    var sorted := Sorting.Sort(temps, Sorting.RealLe);
    SortedSamplesAscend(temps);
    var k := |sorted| / 4;
    assert DroppedLow(temps) == sorted[..k];
    assert TrimmedSamples(temps) == sorted[k .. |sorted| - k];
    assert DroppedHigh(temps) == sorted[|sorted| - k..];
    ThreePartsMultiset(sorted, k);
    ThreePartsOrdered(sorted, k);
  }

  /** `get_avg_temp`: the mean of the trimmed samples. */
  function AverageTemp(temps: seq<real>): real
    requires |temps| > 0
  {
    var kept := TrimmedSamples(temps);
    Sum(kept) / (|kept| as real)
  }

  /** Every value of a sub-multiset lies between the bounds of the whole. */
  lemma SubMultisetWithin(part: seq<real>, whole: seq<real>)
    requires |whole| > 0
    requires multiset(part) <= multiset(whole)
    ensures forall i :: 0 <= i < |part| ==> SeqMin(whole) <= part[i] <= SeqMax(whole)
  {
    forall i | 0 <= i < |part|
      ensures SeqMin(whole) <= part[i] <= SeqMax(whole)
    {
      assert part[i] in multiset(part);
      assert part[i] in multiset(whole);
      var k :| 0 <= k < |whole| && whole[k] == part[i];
    }
  }

  /** The mean of values within [lo, hi] lies within [lo, hi]. */
  lemma MeanWithin(s: seq<real>, lo: real, hi: real)
    requires |s| > 0
    requires forall i :: 0 <= i < |s| ==> lo <= s[i] <= hi
    ensures lo <= Sum(s) / (|s| as real) <= hi
  {
    SumBounds(s, lo, hi);
    MeanBetween(Sum(s), |s| as real, lo, hi);
  }

  /** The trimmed mean lies between the smallest and the largest sample. */
  lemma AverageTempBounds(temps: seq<real>)
    requires |temps| > 0
    ensures SeqMin(temps) <= AverageTemp(temps) <= SeqMax(temps)
  {
    var kept := TrimmedSamples(temps);
    SubMultisetWithin(kept, temps);
    MeanWithin(kept, SeqMin(temps), SeqMax(temps));
  }

  // ---------------------------------------------------------------------------
  // The sampling loop of `TempSensorReal`

  /** One reading from the thermocouple driver: a temperature and its four fault flags. */
  datatype Reading = Reading(
    temp: real,
    noConnection: bool,
    shortToGround: bool,
    shortToVCC: bool,
    unknownError: bool)

  /** What the sampler publishes for the oven to read. */
  datatype SensorState = SensorState(
    temperature: real,
    noConnection: bool,
    shortToGround: bool,
    shortToVCC: bool,
    unknownError: bool,
    badPercent: real)

  /**
   * A reading is discarded when the thermocouple is disconnected or reports an
   * unknown error, and also on a short unless shorts are configured to be ignored.
   */
  predicate IsBadReading(cfg: Config, r: Reading) {
    r.noConnection || r.unknownError
    || (!cfg.ignoreTcShortErrors && (r.shortToGround || r.shortToVCC))
  }

  lemma ShareInUnit(bad: nat, ok: nat)
    requires bad + ok > 0
    ensures 0.0 <= bad as real / (bad + ok) as real <= 1.0
    ensures bad as real / (bad + ok) as real == 0.0 <==> bad == 0
    ensures bad as real / (bad + ok) as real == 1.0 <==> ok == 0
  {
    if bad > 0 {
      RatioInUnit(bad as real, (bad + ok) as real);
    }
  }

  /** The share of bad readings in a window, in percent; 0 for an empty window. */
  function WindowPercent(bad: nat, ok: nat): (pct: real)
    ensures 0.0 <= pct <= 100.0
    ensures pct == 0.0 <==> bad == 0
    ensures pct == 100.0 <==> bad > 0 && ok == 0
  {
    if bad + ok > 0 then
      ShareInUnit(bad, ok);
      (bad as real / (bad + ok) as real) * 100.0
    else 0.0
  }

  /** The emergency test `bad_percent > 30` holds exactly when 7 bad readings outweigh 3 good ones. */
  lemma {:induction false} WindowPercentOver30(bad: nat, ok: nat)
    ensures WindowPercent(bad, ok) > 30.0 <==> 7 * bad > 3 * ok
  {
    if bad + ok > 0 {
      var n := (bad + ok) as real;
      QuotientAbove(bad as real, n, 0.3);
      assert (bad as real / n) * 100.0 > 30.0 <==> bad as real / n > 0.3;
    }
  }

  /**
   * Appending a good reading to the list of recent samples and, when the list
   * then holds more than `limit` values, deleting its first (oldest) one.
   */
  function PushSample(temps: seq<real>, x: real, limit: nat): (r: seq<real>)
    ensures |temps| <= limit ==> |r| <= limit
    ensures |temps| < limit ==> r == temps + [x]
    ensures |temps| >= limit ==> r == (temps + [x])[1..]
  {
    var appended := temps + [x];
    if |appended| > limit then appended[1..] else appended
  }

  /** The last `limit` values of `h` (all of them when there are fewer). */
  function Window(h: seq<real>, limit: nat): seq<real> {
    if |h| <= limit then h else h[|h| - limit..]
  }

  /** Pushing a reading onto the window of a history gives the window of the extended history. */
  lemma PushSampleSlides(h: seq<real>, x: real, limit: nat)
    ensures PushSample(Window(h, limit), x, limit) == Window(h + [x], limit)
  {
    var w := Window(h, limit);
    var h2 := h + [x];
    if |h| < limit {
      assert w == h;
    } else {
      assert w + [x] == h2[|h| - limit..];
      if limit > 0 {
        assert (w + [x])[1..] == h2[|h2| - limit..];
      }
    }
  }

  /**
   * The fields the sampling loop updates: its list of recent good readings,
   * the published temperature and fault flags, and the error-rate window.
   */
  datatype SamplerState = SamplerState(
    temps: seq<real>,
    temperature: real,
    badPercent: real,
    badCount: nat,
    okCount: nat,
    badStamp: real,
    noConnection: bool,
    shortToGround: bool,
    shortToVCC: bool,
    unknownError: bool)

  /** The sensor before its first reading: everything zero, false or empty. */
  const InitialSampler := SamplerState([], 0.0, 0.0, 0, 0, 0.0, false, false, false, false)

  /**
   * What holds between passes: the list never exceeds its configured length,
   * the error rate is a percentage, and a non-empty list's trimmed mean is the
   * published temperature.
   */
  ghost predicate SamplerInv(cfg: Config, st: SamplerState) {
    && |st.temps| <= cfg.temperatureAverageSamples
    && 0.0 <= st.badPercent <= 100.0
    && (|st.temps| > 0 ==> st.temperature == AverageTemp(st.temps))
  }

  /** Closing the error window when it is older than two time steps. */
  function CloseWindow(cfg: Config, st: SamplerState, now: real): (r: SamplerState)
    ensures now - st.badStamp > cfg.sensorTimeWait * 2.0 ==>
              r == st.(badPercent := WindowPercent(st.badCount, st.okCount),
                       badCount := 0, okCount := 0, badStamp := now)
    ensures now - st.badStamp <= cfg.sensorTimeWait * 2.0 ==> r == st
    ensures SamplerInv(cfg, st) ==> SamplerInv(cfg, r)
  {
    if now - st.badStamp > cfg.sensorTimeWait * 2.0 then
      st.(badPercent := WindowPercent(st.badCount, st.okCount),
          badCount := 0, okCount := 0, badStamp := now)
    else st
  }

  /**
   * Publishing the reading's fault flags, then keeping a good reading (the
   * oldest kept one dropped beyond the configured count) or counting a bad one.
   */
  function RecordReading(cfg: Config, st: SamplerState, reading: Reading): (r: SamplerState)
    ensures r.noConnection == reading.noConnection && r.shortToGround == reading.shortToGround
    ensures r.shortToVCC == reading.shortToVCC && r.unknownError == reading.unknownError
    ensures r.temperature == st.temperature && r.badPercent == st.badPercent && r.badStamp == st.badStamp
    ensures IsBadReading(cfg, reading) ==>
              r.temps == st.temps && r.badCount == st.badCount + 1 && r.okCount == st.okCount
    ensures !IsBadReading(cfg, reading) ==>
              r.temps == PushSample(st.temps, reading.temp, cfg.temperatureAverageSamples)
              && r.okCount == st.okCount + 1 && r.badCount == st.badCount
    ensures |st.temps| <= cfg.temperatureAverageSamples ==> |r.temps| <= cfg.temperatureAverageSamples
  {
    var flagged := st.(noConnection := reading.noConnection, shortToGround := reading.shortToGround,
                       shortToVCC := reading.shortToVCC, unknownError := reading.unknownError);
    if IsBadReading(cfg, reading) then flagged.(badCount := flagged.badCount + 1)
    else flagged.(temps := PushSample(flagged.temps, reading.temp, cfg.temperatureAverageSamples),
                  okCount := flagged.okCount + 1)
  }

  /** Republishing the trimmed mean of the kept readings, when there are any. */
  function Republish(st: SamplerState): (r: SamplerState)
    ensures r.temps == st.temps && r.badPercent == st.badPercent
    ensures r.badCount == st.badCount && r.okCount == st.okCount && r.badStamp == st.badStamp
    ensures r.noConnection == st.noConnection && r.shortToGround == st.shortToGround
    ensures r.shortToVCC == st.shortToVCC && r.unknownError == st.unknownError
    ensures st.temps == [] ==> r.temperature == st.temperature
    ensures st.temps != [] ==> r.temperature == AverageTemp(st.temps)
    ensures st.temps != [] ==> SeqMin(st.temps) <= r.temperature <= SeqMax(st.temps)
  {
    if |st.temps| > 0 then
      AverageTempBounds(st.temps);
      st.(temperature := AverageTemp(st.temps))
    else st
  }

  /**
   * One pass of the sampling loop at clock time `now`: close the error
   * window if it has expired, record the reading, and republish the mean.
   * The invariant is kept, and the new state is described field by field.
   */
  function SampleStep(cfg: Config, st: SamplerState, now: real, reading: Reading): (r: SamplerState)
    requires SamplerInv(cfg, st)
    ensures SamplerInv(cfg, r)
    ensures r.noConnection == reading.noConnection && r.shortToGround == reading.shortToGround
    ensures r.shortToVCC == reading.shortToVCC && r.unknownError == reading.unknownError
    ensures var w := CloseWindow(cfg, st, now);
            && r.badPercent == w.badPercent && r.badStamp == w.badStamp
            && (IsBadReading(cfg, reading) ==>
                  r.temps == st.temps && r.badCount == w.badCount + 1 && r.okCount == w.okCount)
            && (!IsBadReading(cfg, reading) ==>
                  r.temps == PushSample(st.temps, reading.temp, cfg.temperatureAverageSamples)
                  && r.okCount == w.okCount + 1 && r.badCount == w.badCount)
    ensures r.temps == [] ==> r.temperature == st.temperature
    ensures r.temps != [] ==> SeqMin(r.temps) <= r.temperature <= SeqMax(r.temps)
  {
    Republish(RecordReading(cfg, CloseWindow(cfg, st, now), reading))
  }

  /**
   * Over a run, the list the loop keeps is the last `temperature_average_samples`
   * of all good readings so far.
   */
  lemma SampleStepSlides(cfg: Config, st: SamplerState, accepted: seq<real>, now: real, reading: Reading)
    requires SamplerInv(cfg, st)
    requires st.temps == Window(accepted, cfg.temperatureAverageSamples)
    ensures SampleStep(cfg, st, now, reading).temps ==
              Window(if IsBadReading(cfg, reading) then accepted else accepted + [reading.temp],
                     cfg.temperatureAverageSamples)
  {
    if !IsBadReading(cfg, reading) {
      PushSampleSlides(accepted, reading.temp, cfg.temperatureAverageSamples);
    }
  }

  /**
   * The sampling thread; `temps` is its loop's list of recent good readings.
   */
  class TempSampler {
    const cfg: Config
    var temps: seq<real>
    var temperature: real
    var badPercent: real
    var badCount: nat
    var okCount: nat
    var badStamp: real
    var noConnection: bool
    var shortToGround: bool
    var shortToVCC: bool
    var unknownError: bool

    function State(): SamplerState
      reads this
    {
      SamplerState(temps, temperature, badPercent, badCount, okCount, badStamp,
                   noConnection, shortToGround, shortToVCC, unknownError)
    }

    ghost predicate Valid()
      reads this
    {
      SamplerInv(cfg, State())
    }

    constructor(cfg: Config)
      ensures this.cfg == cfg && Valid()
      ensures State() == InitialSampler
    {
      this.cfg := cfg;
      temps, temperature := [], 0.0;
      badPercent, badCount, okCount, badStamp := 0.0, 0, 0, 0.0;
      noConnection, shortToGround, shortToVCC, unknownError := false, false, false, false;
    }

    /** What the oven reads from the sensor. */
    function Published(): SensorState
      reads this
    {
      SensorState(temperature, noConnection, shortToGround, shortToVCC, unknownError, badPercent)
    }

    /** Overwrites every field the loop updates. */
    method Store(next: SamplerState)
      modifies this
      ensures State() == next
    {
      temps, temperature, badPercent := next.temps, next.temperature, next.badPercent;
      badCount, okCount, badStamp := next.badCount, next.okCount, next.badStamp;
      noConnection, shortToGround := next.noConnection, next.shortToGround;
      shortToVCC, unknownError := next.shortToVCC, next.unknownError;
    }

    /** One pass of the sampling loop at clock time `now` with the driver's `reading`. */
    method Sample(now: real, reading: Reading)
      requires Valid()
      modifies this
      ensures Valid()
      ensures State() == SampleStep(cfg, old(State()), now, reading)
    {
      var next := SampleStep(cfg, State(), now, reading);
      Store(next);
    }
  }
}
