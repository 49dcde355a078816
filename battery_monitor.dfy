/** `BatteryMonitor`: a batch accumulator that averages raw ADC samples of the
    divided battery voltage, and the map from battery voltage to a charge
    percentage by linear interpolation over a fixed discharge curve. */
module BatteryMonitor {
  import opened Arith

  /** The voltage divider in front of the ADC pin (kOhm). */
  const R1: real := 96.5
  const R2: real := 45.5
  const VOLTAGE_SCALER: real := (R1 + R2) / R2

  /** Samples per batch, minimum milliseconds between samples, and the largest
      value of the 12-bit converter. */
  const SAMPLE_COUNT: nat := 20
  const SAMPLE_INTERVAL: nat := 1
  const ADC_MAX: nat := 4095

  /** The divider scales the pin voltage up: battery volts are 284/91 of it. */
  lemma ScalerAboveOne()
    ensures VOLTAGE_SCALER == 284.0 / 91.0
    ensures VOLTAGE_SCALER > 1.0
  {
  }

  // ---------------------------------------------------------------------
  // Discharge curve and interpolation

  /** One point of the discharge curve: battery volts and charge percent. */
  datatype Anchor = Anchor(volts: real, percent: real)

  /** The empirical discharge curve, highest voltage first. */
  const BATTERY_LEVELS: seq<Anchor> := [
    Anchor(4.20, 100.0),  // full charge
    Anchor(4.00, 80.0),
    Anchor(3.80, 60.0),
    Anchor(3.60, 40.0),
    Anchor(3.40, 20.0),
    Anchor(3.30, 10.0),
    Anchor(3.00, 5.0),
    Anchor(2.70, 0.0)     // cut-off
  ]

  /** Both columns strictly decrease down the table. */
  predicate Descending(t: seq<Anchor>) {
    forall i, j :: 0 <= i < j < |t| ==> t[j].volts < t[i].volts && t[j].percent < t[i].percent
  }

  lemma BatteryLevelsDescending()
    ensures |BATTERY_LEVELS| == 8 && Descending(BATTERY_LEVELS)
    ensures BATTERY_LEVELS[0] == Anchor(4.20, 100.0)
    ensures BATTERY_LEVELS[|BATTERY_LEVELS| - 1] == Anchor(2.70, 0.0)
  {
  }

  /** Segment `k` (between anchors `k` and `k + 1`) contains `v`, end points
      included. */
  predicate Brackets(t: seq<Anchor>, k: nat, v: real)
    requires k + 1 < |t|
  {
    v <= t[k].volts && v >= t[k + 1].volts
  }

  /** The first segment at or after `from` that contains `v`, or `|t| - 1`
      when there is none. */
  function FirstBracket(t: seq<Anchor>, v: real, from: nat): (k: nat)
    requires from < |t|
    ensures from <= k < |t|
    ensures k + 1 < |t| ==> Brackets(t, k, v)
    ensures forall j :: from <= j < k ==> !Brackets(t, j, v)
    decreases |t| - from
  {
    if from + 1 >= |t| then from
    else if Brackets(t, from, v) then from
    else FirstBracket(t, v, from + 1)
  }

  /** Linear interpolation between a higher anchor `a1` and a lower `a2`. */
  function Interpolate(a1: Anchor, a2: Anchor, v: real): real
    requires a2.volts < a1.volts
  {
    a1.percent + ((v - a1.volts) / (a2.volts - a1.volts)) * (a2.percent - a1.percent)
  }

  /** Voltage to percent: clamp at both ends of the curve, otherwise truncate
      the interpolation in the first segment containing the voltage. The
      final 0 is the source's fallback when no segment matches. */
  function CurvePercent(t: seq<Anchor>, v: real): int
    requires |t| >= 2 && Descending(t)
  {
    if v >= t[0].volts then Trunc(t[0].percent)
    else if v <= t[|t| - 1].volts then Trunc(t[|t| - 1].percent)
    else
      var k := FirstBracket(t, v, 0);
      if k + 1 < |t| then Trunc(Interpolate(t[k], t[k + 1], v)) else 0
  }

  /** The interpolation meets both anchors of its segment. */
  lemma InterpolateEnds(a1: Anchor, a2: Anchor)
    requires a2.volts < a1.volts
    ensures Interpolate(a1, a2, a1.volts) == a1.percent
    ensures Interpolate(a1, a2, a2.volts) == a2.percent
  {
  }

  /** Inside its segment the interpolation stays between the two anchors'
      percentages. */
  lemma InterpolateWithin(a1: Anchor, a2: Anchor, v: real)
    requires a2.volts < a1.volts && a2.percent <= a1.percent
    requires a2.volts <= v <= a1.volts
    ensures a2.percent <= Interpolate(a1, a2, v) <= a1.percent
  {
    var frac := (v - a1.volts) / (a2.volts - a1.volts);
    FractionInUnit(a1.volts - v, a1.volts - a2.volts);
    assert frac == (a1.volts - v) / (a1.volts - a2.volts);
    ScaledWithin(a1.percent - a2.percent, frac);
  }

  /** On a segment whose percentage rises with voltage, the interpolation
      does not decrease. */
  lemma InterpolateMonotone(a1: Anchor, a2: Anchor, v: real, w: real)
    requires a2.volts < a1.volts && a2.percent <= a1.percent
    requires v <= w
    ensures Interpolate(a1, a2, v) <= Interpolate(a1, a2, w)
  {
    var d := a1.volts - a2.volts;
    var fv := (v - a1.volts) / (a2.volts - a1.volts);
    var fw := (w - a1.volts) / (a2.volts - a1.volts);
    assert fv == (a1.volts - v) / d;
    assert fw == (a1.volts - w) / d;
    DivideMonotone(a1.volts - w, a1.volts - v, d);
    MultiplyMonotone(fw, fv, a1.percent - a2.percent);
  }

  lemma FractionInUnit(a: real, d: real)
    requires d > 0.0 && 0.0 <= a <= d
    ensures 0.0 <= a / d <= 1.0
  {
    DivideMonotone(0.0, a, d);
    DivideMonotone(a, d, d);
  }

  /** Strictly inside the curve some segment holds the voltage, so the
      fallback `return 0` is never reached. */
  lemma {:induction false} BracketExists(t: seq<Anchor>, v: real, from: nat)
    requires from + 1 < |t| && Descending(t)
    requires t[|t| - 1].volts < v <= t[from].volts
    ensures FirstBracket(t, v, from) + 1 < |t|
    decreases |t| - from
  {
    if !Brackets(t, from, v) {
      assert v < t[from + 1].volts;
      if from + 2 < |t| {
        BracketExists(t, v, from + 1);
      }
    }
  }

  /** The curve's result lies between the percentages of its last and first
      anchors. */
  lemma CurvePercentRange(t: seq<Anchor>, v: real)
    requires |t| >= 2 && Descending(t)
    ensures Trunc(t[|t| - 1].percent) <= CurvePercent(t, v) <= Trunc(t[0].percent)
  {
    TruncMonotone(t[|t| - 1].percent, t[0].percent);
    if t[|t| - 1].volts < v < t[0].volts {
      BracketExists(t, v, 0);
      var k := FirstBracket(t, v, 0);
      var p := Interpolate(t[k], t[k + 1], v);
      InterpolateWithin(t[k], t[k + 1], v);
      assert t[|t| - 1].percent <= t[k + 1].percent;
      assert t[k].percent <= t[0].percent;
      TruncMonotone(t[|t| - 1].percent, p);
      TruncMonotone(p, t[0].percent);
    }
  }

  /** A higher voltage never gives a lower percentage. */
  lemma CurvePercentMonotone(t: seq<Anchor>, v: real, w: real)
    requires |t| >= 2 && Descending(t)
    requires v <= w
    ensures CurvePercent(t, v) <= CurvePercent(t, w)
  {
    var n := |t|;
    CurvePercentRange(t, v);
    CurvePercentRange(t, w);
    if t[n - 1].volts < v && w < t[0].volts {
      BracketExists(t, v, 0);
      BracketExists(t, w, 0);
      var kv := FirstBracket(t, v, 0);
      var kw := FirstBracket(t, w, 0);
      // the segment of the higher voltage comes no later in the table
      if w <= t[kv].volts {
        assert Brackets(t, kv, w);
      } else {
        assert t[kv].volts < w <= t[kw].volts;
      }
      assert kw <= kv;
      var pv := Interpolate(t[kv], t[kv + 1], v);
      var pw := Interpolate(t[kw], t[kw + 1], w);
      if kw == kv {
        InterpolateMonotone(t[kv], t[kv + 1], v, w);
      } else {
        InterpolateWithin(t[kv], t[kv + 1], v);
        InterpolateWithin(t[kw], t[kw + 1], w);
        assert t[kv].percent <= t[kw + 1].percent;
      }
      TruncMonotone(pv, pw);
    }
  }

  /** The curve mapped by the firmware. */
  function BatteryPercentOf(vBat: real): (pct: int)
    ensures 0 <= pct <= 100
  {
    BatteryLevelsDescending();
    CurvePercentRange(BATTERY_LEVELS, vBat);
    CurvePercent(BATTERY_LEVELS, vBat)
  }

  /** Fully charged at 4.20 V and above, empty at 2.70 V and below. */
  lemma BatteryPercentClamps(vBat: real)
    ensures vBat >= 4.20 ==> BatteryPercentOf(vBat) == 100
    ensures vBat <= 2.70 ==> BatteryPercentOf(vBat) == 0
  {
    BatteryLevelsDescending();
  }

  /** 3.9 V lies half way between the 4.00 V / 80 % and 3.80 V / 60 %
      anchors, which gives 70 %. */
  lemma BatteryPercentExample()
    ensures BatteryPercentOf(3.9) == 70
  {
    BatteryLevelsDescending();
    assert !Brackets(BATTERY_LEVELS, 0, 3.9);
    assert Brackets(BATTERY_LEVELS, 1, 3.9);
    assert FirstBracket(BATTERY_LEVELS, 3.9, 1) == 1;
    assert FirstBracket(BATTERY_LEVELS, 3.9, 0) == 1;
    assert Interpolate(BATTERY_LEVELS[1], BATTERY_LEVELS[2], 3.9) == 70.0;
  }

  /** 3.31 V lies a tenth of the way from 3.30 V / 10 % to 3.40 V / 20 %,
      which gives 11 %. */
  lemma BatteryPercentNearCutoff()
    ensures BatteryPercentOf(3.31) == 11
  {
    BatteryLevelsDescending();
    assert !Brackets(BATTERY_LEVELS, 0, 3.31);
    assert !Brackets(BATTERY_LEVELS, 1, 3.31);
    assert !Brackets(BATTERY_LEVELS, 2, 3.31);
    assert !Brackets(BATTERY_LEVELS, 3, 3.31);
    assert Brackets(BATTERY_LEVELS, 4, 3.31);
    assert FirstBracket(BATTERY_LEVELS, 3.31, 4) == 4;
    assert FirstBracket(BATTERY_LEVELS, 3.31, 0) == 4;
    assert Interpolate(BATTERY_LEVELS[4], BATTERY_LEVELS[5], 3.31) == 11.0;
  }

  /** `getBatteryPercentage`'s mapping: the scan over adjacent anchors with an
      early return on the first segment containing `vBat`. */
  method PercentOnCurve(levels: seq<Anchor>, vBat: real) returns (pct: int)
    requires |levels| >= 2 && Descending(levels)
    ensures pct == CurvePercent(levels, vBat)
  {
    var tableSize := |levels|;

    if vBat >= levels[0].volts {
      return Trunc(levels[0].percent);
    }
    if vBat <= levels[tableSize - 1].volts {
      return Trunc(levels[tableSize - 1].percent);
    }

    for i := 0 to tableSize - 1
      invariant FirstBracket(levels, vBat, i) == FirstBracket(levels, vBat, 0)
    {
      if vBat <= levels[i].volts && vBat >= levels[i + 1].volts {
        var perc := Interpolate(levels[i], levels[i + 1], vBat);
        assert FirstBracket(levels, vBat, 0) == i;
        return Trunc(perc);
      }
    }
    return 0;
  }

  /** The battery's charge level in percent: always within 0..100. */
  method BatteryPercent(vBat: real) returns (pct: int)
    ensures pct == BatteryPercentOf(vBat)
    ensures 0 <= pct <= 100
  {
    BatteryLevelsDescending();
    CurvePercentRange(BATTERY_LEVELS, vBat);
    pct := PercentOnCurve(BATTERY_LEVELS, vBat);
  }

  // ---------------------------------------------------------------------
  // Sample accumulator

  /** The function-static accumulator of `getBatteryVoltage`. */
  datatype SamplerState = SamplerState(lastSampleTime: nat, sampleCount: nat, adcSum: nat)

  /** Between calls the batch is never complete and every sample it holds is
      a 12-bit value, so the 32-bit sum cannot wrap. */
  predicate SamplerInvariant(st: SamplerState) {
    && st.lastSampleTime < U32
    && st.sampleCount < SAMPLE_COUNT
    && st.adcSum <= st.sampleCount * ADC_MAX
  }

  /** The interval gate, on the wrapping 32-bit clock. */
  predicate SampleDue(last: nat, now: nat)
    requires last < U32 && now < U32
  {
    WrapSub(now, last) >= SAMPLE_INTERVAL
  }

  /** With a 1 ms interval on a wrapping clock, a sample is due exactly when
      the clock has moved since the last one. */
  lemma SampleDueIffClockMoved(last: nat, now: nat)
    requires last < U32 && now < U32
    ensures SampleDue(last, now) <==> now != last
  {
    WrapSubZero(now, last);
  }

  /** `adcSum / (sampleCount ? sampleCount : 1)`: the integer mean of the
      samples so far, and 0 when there are none. */
  function PartialAverage(sum: nat, count: nat): (avg: nat)
    ensures count > 0 ==> avg * count <= sum < (avg + 1) * count
    ensures count == 0 ==> avg == sum
  {
    sum / (if count != 0 then count else 1)
  }

  /** The mean of 12-bit samples is a 12-bit value. */
  lemma AverageInRange(sum: nat, count: nat)
    requires sum <= count * ADC_MAX
    ensures PartialAverage(sum, count) <= ADC_MAX
  {
    var avg := PartialAverage(sum, count);
    if count > 0 && avg > ADC_MAX {
      // (ADC_MAX + 1) * count <= avg * count <= sum <= ADC_MAX * count
      ScaleMonotone(ADC_MAX + 1, avg, count);
      assert false;
    }
  }

  lemma ScaleMonotone(x: nat, y: nat, c: nat)
    requires x <= y
    ensures x * c <= y * c
  {
    assert y * c == x * c + (y - x) * c;
  }

  /** The accumulator after one call, and the raw value the call converts. */
  datatype SampleResult = SampleResult(next: SamplerState, rawAverage: nat)

  /** One call of `getBatteryVoltage` on the accumulator. */
  function SampleStep(st: SamplerState, now: nat, sample: nat): (r: SampleResult)
    requires SamplerInvariant(st) && now < U32 && sample <= ADC_MAX
    ensures SamplerInvariant(r.next)
    ensures r.rawAverage <= ADC_MAX
    ensures !SampleDue(st.lastSampleTime, now) ==>
      r.next == st && r.rawAverage == PartialAverage(st.adcSum, st.sampleCount)
    ensures SampleDue(st.lastSampleTime, now) ==> r.next.lastSampleTime == now
    ensures SampleDue(st.lastSampleTime, now) && st.sampleCount + 1 == SAMPLE_COUNT ==>
      && r.next.sampleCount == 0 && r.next.adcSum == 0
      && r.rawAverage * SAMPLE_COUNT <= st.adcSum + sample < (r.rawAverage + 1) * SAMPLE_COUNT
    ensures SampleDue(st.lastSampleTime, now) && st.sampleCount + 1 < SAMPLE_COUNT ==>
      && r.next.sampleCount == st.sampleCount + 1
      && r.next.adcSum == st.adcSum + sample
      && r.rawAverage == PartialAverage(r.next.adcSum, r.next.sampleCount)
  {
    AverageInRange(st.adcSum, st.sampleCount);
    if SampleDue(st.lastSampleTime, now) then
      var sum, count := st.adcSum + sample, st.sampleCount + 1;
      AverageInRange(sum, count);
      if count >= SAMPLE_COUNT then
        SampleResult(SamplerState(now, 0, 0), sum / SAMPLE_COUNT)
      else
        SampleResult(SamplerState(now, count, sum), PartialAverage(sum, count))
    else
      SampleResult(st, PartialAverage(st.adcSum, st.sampleCount))
  }

  function Sum(s: seq<nat>): nat {
    if s == [] then 0 else s[0] + Sum(s[1..])
  }

  /** Clock values and ADC samples for successive calls. */
  predicate Feedable(clocks: seq<nat>, samples: seq<nat>) {
    && |clocks| == |samples| > 0
    && (forall k :: 0 <= k < |clocks| ==> clocks[k] < U32)
    && (forall k :: 0 <= k < |samples| ==> samples[k] <= ADC_MAX)
  }

  /** The clock has moved before each of the calls. */
  predicate ClockMoves(last: nat, clocks: seq<nat>) {
    && (|clocks| > 0 ==> clocks[0] != last)
    && (forall k :: 0 <= k < |clocks| - 1 ==> clocks[k + 1] != clocks[k])
  }

  /** Successive calls of `getBatteryVoltage`, one per clock value; the
      result is that of the last call. */
  function Feed(st: SamplerState, clocks: seq<nat>, samples: seq<nat>): SampleResult
    requires SamplerInvariant(st) && Feedable(clocks, samples)
    decreases |clocks|
  {
    var r := SampleStep(st, clocks[0], samples[0]);
    if |clocks| == 1 then r else Feed(r.next, clocks[1..], samples[1..])
  }

  /** Calls whose clock has moved each add their sample: until the batch is
      full the accumulator holds the running sum and count, and the call that
      fills it reports the integer mean of all the batch's samples and leaves
      an empty accumulator. */
  lemma {:induction false} BatchAccumulates(st: SamplerState, clocks: seq<nat>, samples: seq<nat>)
    requires SamplerInvariant(st) && Feedable(clocks, samples)
    requires ClockMoves(st.lastSampleTime, clocks)
    requires st.sampleCount + |samples| <= SAMPLE_COUNT
    ensures var r := Feed(st, clocks, samples);
      var count, total := st.sampleCount + |samples|, st.adcSum + Sum(samples);
      && (count < SAMPLE_COUNT ==>
            && r.next == SamplerState(clocks[|clocks| - 1], count, total)
            && r.rawAverage == PartialAverage(total, count))
      && (count == SAMPLE_COUNT ==>
            && r.next == SamplerState(clocks[|clocks| - 1], 0, 0)
            && r.rawAverage == total / SAMPLE_COUNT)
    decreases |clocks|
  {
    SampleDueIffClockMoved(st.lastSampleTime, clocks[0]);
    var r := SampleStep(st, clocks[0], samples[0]);
    assert Sum(samples) == samples[0] + Sum(samples[1..]);
    if |clocks| > 1 {
      var clocks', samples' := clocks[1..], samples[1..];
      assert ClockMoves(r.next.lastSampleTime, clocks') by {
        assert clocks'[0] == clocks[1] != clocks[0];
        forall k | 0 <= k < |clocks'| - 1 ensures clocks'[k + 1] != clocks'[k] {
          assert clocks'[k + 1] == clocks[k + 2] && clocks'[k] == clocks[k + 1];
        }
      }
      BatchAccumulates(r.next, clocks', samples');
    }
  }

  /** From an empty accumulator, twenty calls at a moving clock report the
      integer mean of their twenty samples. */
  lemma BatchMean(st: SamplerState, clocks: seq<nat>, samples: seq<nat>)
    requires SamplerInvariant(st) && st.sampleCount == 0 && st.adcSum == 0
    requires Feedable(clocks, samples) && |samples| == SAMPLE_COUNT
    requires ClockMoves(st.lastSampleTime, clocks)
    ensures Feed(st, clocks, samples).rawAverage == Sum(samples) / SAMPLE_COUNT
    ensures Feed(st, clocks, samples).next.sampleCount == 0
  {
    BatchAccumulates(st, clocks, samples);
  }

  /** Calibrated millivolts at the pin, as battery volts. */
  function ToBatteryVolts(millivolts: nat): (v: real)
    ensures v >= 0.0
    ensures v * 1000.0 * R2 == millivolts as real * (R1 + R2)
  {
    (millivolts as real / 1000.0) * VOLTAGE_SCALER
  }

  /** The function statics of `getBatteryVoltage` as fields; the ADC reading
      and the clock are passed in, and so is the calibrated raw-to-millivolt
      conversion of the ADC driver. */
  class Monitor {
    var lastSampleTime: nat
    var sampleCount: nat
    var adcSum: nat

    function State(): SamplerState
      reads this
    {
      SamplerState(lastSampleTime, sampleCount, adcSum)
    }

    ghost predicate Valid()
      reads this
    {
      SamplerInvariant(State())
    }

    constructor ()
      ensures Valid() && State() == SamplerState(0, 0, 0)
    {
      lastSampleTime, sampleCount, adcSum := 0, 0, 0;
    }

    /** `getBatteryVoltage`: fold in `sample` when the interval has passed;
        on a full batch return its mean and start a new batch, otherwise
        return the mean of the partial batch. */
    method GetBatteryVoltage(now: nat, sample: nat, rawToMillivolts: nat -> nat)
      returns (vBat: real)
      requires Valid() && now < U32 && sample <= ADC_MAX
      modifies this
      ensures Valid()
      ensures State() == SampleStep(old(State()), now, sample).next
      ensures vBat == ToBatteryVolts(rawToMillivolts(SampleStep(old(State()), now, sample).rawAverage))
    {
      ghost var step := SampleStep(State(), now, sample);
      if WrapSub(now, lastSampleTime) >= SAMPLE_INTERVAL {
        lastSampleTime := now;
        assert adcSum + sample < U32;  // the uint32_t sum does not wrap
        adcSum := adcSum + sample;
        sampleCount := sampleCount + 1;

        if sampleCount >= SAMPLE_COUNT {
          var adcAverage := adcSum / SAMPLE_COUNT;
          var vOut := rawToMillivolts(adcAverage) as real / 1000.0;
          vBat := vOut * VOLTAGE_SCALER;
          adcSum := 0;
          sampleCount := 0;
          assert adcAverage == step.rawAverage;
          return;
        }
      }
      var adcAverage := adcSum / (if sampleCount != 0 then sampleCount else 1);
      assert adcAverage == step.rawAverage;
      var vOut := rawToMillivolts(adcAverage) as real / 1000.0;
      vBat := vOut * VOLTAGE_SCALER;
    }

    /** `getBatteryPercentage`: one voltage reading, mapped onto the curve. */
    method GetBatteryPercentage(now: nat, sample: nat, rawToMillivolts: nat -> nat)
      returns (pct: int)
      requires Valid() && now < U32 && sample <= ADC_MAX
      modifies this
      ensures Valid()
      ensures State() == SampleStep(old(State()), now, sample).next
      ensures pct == BatteryPercentOf(
        ToBatteryVolts(rawToMillivolts(SampleStep(old(State()), now, sample).rawAverage)))
      ensures 0 <= pct <= 100
    {
      var vBat := GetBatteryVoltage(now, sample, rawToMillivolts);
      pct := BatteryPercent(vBat);
    }
  }
}
