/** `SystemManager::getPowerReadings`: one sampling cycle of the power meter.
    It checks the meter's raw values, integrates energy into the process-wide
    accumulator, and derives apparent, reactive and distortion power, load
    impedance, THD and a power-quality index, each behind its own guard. */
module SystemManager {
  import opened Arith
  import opened Readings

  /** The five values the meter driver returns in one cycle; `None` is NaN,
      which the driver returns when the meter does not answer. */
  datatype MeterSample = MeterSample(
    voltage: Option<real>,
    current: Option<real>,
    power: Option<real>,
    frequency: Option<real>,
    powerFactor: Option<real>)

  /** A reading is usable when voltage, current and power are all numbers;
      frequency and power factor play no part. */
  predicate SampleValid(s: MeterSample) {
    s.voltage.Some? && s.current.Some? && s.power.Some?
  }

  /** Milliseconds per hour, the divisor that turns W x ms into Wh. */
  const MS_PER_HOUR: real := 3600000.0

  /** The charging pin reads in millivolts; above 1.3 V counts as charging. */
  function IsCharging(raw: int): (charging: bool)
    ensures charging <==> raw > 1300
  {
    raw as real / 1000.0 > 1.3
  }

  /** Energy integration on a valid reading: with no previous measurement
      (time 0) only the timestamp moves; otherwise the total grows by power
      times the elapsed hours, the elapsed time taken on the 32-bit clock. */
  function Integrate(e: EnergyState, power: real, now: nat): (e': EnergyState)
    requires e.lastTime < U32 && now < U32
    ensures e'.lastTime == now
    ensures e.lastTime == 0 ==> e'.accumulated == e.accumulated
    ensures e.lastTime > 0 ==>
      (e'.accumulated - e.accumulated) * MS_PER_HOUR == power * WrapSub(now, e.lastTime) as real
    ensures power >= 0.0 ==> e'.accumulated >= e.accumulated
  {
    if e.lastTime > 0 then
      var hours := WrapSub(now, e.lastTime) as real / MS_PER_HOUR;
      EnergyState(e.accumulated + power * hours, now)
    else
      EnergyState(e.accumulated, now)
  }

  /** Reactive power from apparent power and power factor. Where the factor is
      NaN or its square exceeds 1 the result is 0; otherwise it completes the
      power triangle: reactive^2 + (apparent x pf)^2 == apparent^2. */
  function ReactivePower(apparent: real, pf: Option<real>, sqrt: real -> real): (q: real)
    requires IsSqrt(sqrt)
    ensures pf.None? ==> q == 0.0
    ensures pf.Some? && pf.value * pf.value > 1.0 ==> q == 0.0
    ensures pf.Some? && pf.value * pf.value <= 1.0 ==>
      q * q + (apparent * pf.value) * (apparent * pf.value) == apparent * apparent
    ensures apparent >= 0.0 ==> 0.0 <= q <= apparent
  {
    match pf
    case None => 0.0  // NaN <= 1.0 is false
    case Some(f) =>
      assert pf.value * pf.value == f * f;
      if f * f <= 1.0 then
        var s := sqrt(1.0 - f * f);
        SqrtAtMostOne(sqrt, 1.0 - f * f);
        var q := apparent * s;
        ReactiveLeg(apparent, f, s, q);
        q
      else
        0.0
  }

  /** With s the square root of 1 - f^2, the reactive leg `apparent x s`
      closes the power triangle and, for non-negative apparent power, lies
      between 0 and apparent. */
  lemma ReactiveLeg(apparent: real, f: real, s: real, q: real)
    requires s * s == 1.0 - f * f && 0.0 <= s <= 1.0
    requires q == apparent * s
    ensures q * q + (apparent * f) * (apparent * f) == apparent * apparent
    ensures apparent >= 0.0 ==> 0.0 <= q <= apparent
  {
    ReactiveTriangle(apparent, f, s);
    ScaledWithin(apparent, s);
  }

  /** With s the square root of 1 - f^2, apparent x s and apparent x f are
      the legs of a right triangle whose hypotenuse is apparent. */
  lemma ReactiveTriangle(apparent: real, f: real, s: real)
    requires s * s == 1.0 - f * f
    ensures (apparent * s) * (apparent * s) + (apparent * f) * (apparent * f) == apparent * apparent
  {
    calc {
      (apparent * s) * (apparent * s) + (apparent * f) * (apparent * f);
      apparent * apparent * (s * s) + apparent * apparent * (f * f);
      apparent * apparent * (s * s + f * f);
      apparent * apparent;
    }
  }

  /** Load impedance: voltage over current when current flows, else 0. */
  function LoadImpedance(voltage: real, current: real): (z: real)
    ensures current > 0.0 ==> z * current == voltage
    ensures current <= 0.0 ==> z == 0.0
  {
    if current > 0.0 then voltage / current else 0.0
  }

  /** Distortion power and THD (in percent). */
  datatype Distortion = Distortion(power: real, thd: real)

  /** Distortion is computed only when apparent power covers a positive real
      power; then distortion^2 + real^2 == apparent^2 and THD is distortion
      as a percentage of real power. Otherwise both are 0. Neither is ever
      negative. */
  function DistortionOf(apparent: real, power: real, sqrt: real -> real): (d: Distortion)
    requires IsSqrt(sqrt)
    ensures d.power >= 0.0 && d.thd >= 0.0
    ensures apparent >= power > 0.0 ==>
      && d.power * d.power + power * power == apparent * apparent
      && d.thd * power == 100.0 * d.power
    ensures !(apparent >= power > 0.0) ==> d == Distortion(0.0, 0.0)
  {
    if apparent >= power && power > 0.0 then
      var distSquared := apparent * apparent - power * power;
      DistortionRadicandNonNegative(apparent, power);
      if distSquared >= 0.0 then
        var dp := sqrt(distSquared);
        Distortion(dp, (dp / power) * 100.0)
      else
        Distortion(0.0, 0.0)
    else
      Distortion(0.0, 0.0)
  }

  /** The inner guard of the distortion computation always passes: once
      apparent power covers a positive real power, the radicand is not
      negative. */
  lemma DistortionRadicandNonNegative(apparent: real, power: real)
    requires apparent >= power > 0.0
    ensures apparent * apparent - power * power >= 0.0
  {
    assert apparent * apparent - power * power == (apparent - power) * (apparent + power);
  }

  /** Power quality: the power factor scaled down by the THD fraction when THD
      is a percentage in [0, 100], else the raw factor. A NaN factor makes the
      result NaN, which the final scrub turns into 0. */
  function PowerQuality(pf: Option<real>, thd: real): (pq: real)
    ensures pf.None? ==> pq == 0.0
    ensures pf.Some? && 0.0 <= thd <= 100.0 ==>
      pq * 100.0 == pf.value * (100.0 - thd) && Abs(pq) <= Abs(pf.value)
    ensures pf.Some? && !(0.0 <= thd <= 100.0) ==> pq == pf.value
    ensures pf.Some? && thd == 0.0 ==> pq == pf.value
  {
    match pf
    case None => 0.0
    case Some(f) =>
      if 0.0 <= thd <= 100.0 then
        QualityBound(f, thd);
        f * (1.0 - thd / 100.0)
      else
        f
  }

  lemma QualityBound(f: real, thd: real)
    requires 0.0 <= thd <= 100.0
    ensures Abs(f * (1.0 - thd / 100.0)) <= Abs(f)
  {
    var k := 1.0 - thd / 100.0;
    assert 0.0 <= k <= 1.0;
    if f >= 0.0 {
      assert 0.0 <= f * k <= f * 1.0;
    } else {
      assert f * 1.0 <= f * k <= 0.0;
    }
  }

  /** `getPowerReadings`: the meter's values and the charging pin's reading
      are passed in, as is the millisecond clock. */
  method GetPowerReadings(
    acc: EnergyAccumulator, s: MeterSample, chargingRaw: int, now: nat, sqrt: real -> real)
    returns (r: PowerReadings)
    requires acc.Valid() && now < U32 && IsSqrt(sqrt)
    modifies acc
    ensures acc.Valid()
    ensures r.isCharging == IsCharging(chargingRaw)
    ensures r.isValid <==> SampleValid(s)
    // Invalid: fallback record, energy kept, accumulator untouched
    ensures !SampleValid(s) ==>
      && ZeroMetrics(r)
      && r.energy == old(acc.accumulatedEnergy)
      && acc.State() == old(acc.State())
    // Valid: energy integrated, the record carries the new total
    ensures SampleValid(s) ==>
      var v, i, p := s.voltage.value, s.current.value, s.power.value;
      && acc.State() == Integrate(old(acc.State()), p, now)
      && r.energy == acc.accumulatedEnergy
      && r.voltage == v && r.current == i && r.power == p
      && r.frequency == s.frequency && r.powerFactor == s.powerFactor
      && r.apparentPower == v * i
      && r.reactivePower == ReactivePower(v * i, s.powerFactor, sqrt)
      && r.loadImpedance == LoadImpedance(v, i)
      && r.distortionPower == DistortionOf(v * i, p, sqrt).power
      && r.thd == DistortionOf(v * i, p, sqrt).thd
      && r.powerQuality == PowerQuality(s.powerFactor, r.thd)
  {
    var charging := IsCharging(chargingRaw);
    ghost var before := acc.State();
    if SampleValid(s) {
      var v, i, p := s.voltage.value, s.current.value, s.power.value;
      if acc.lastMeasurementTime > 0 {
        var hours := WrapSub(now, acc.lastMeasurementTime) as real / MS_PER_HOUR;
        var increment := p * hours;
        acc.accumulatedEnergy := acc.accumulatedEnergy + increment;
      }
      acc.lastMeasurementTime := now;
      assert acc.State() == Integrate(before, p, now);

      var apparent := v * i;
      var reactive := ReactivePower(apparent, s.powerFactor, sqrt);
      var impedance := LoadImpedance(v, i);
      var d := DistortionOf(apparent, p, sqrt);
      var quality := PowerQuality(s.powerFactor, d.thd);
      r := PowerReadings(v, i, p, acc.accumulatedEnergy, s.frequency, s.powerFactor,
                         apparent, reactive, impedance, d.power, d.thd, quality,
                         true, charging);
    } else {
      // Every field but energy and the charging flag keeps its zero default.
      r := DefaultReadings().(energy := acc.accumulatedEnergy, isCharging := charging);
    }
  }

  /** Thirty minutes at 60 W on top of 100 Wh gives 130 Wh. */
  lemma HalfHourAtSixtyWatts(t: nat)
    requires 0 < t && t + 1800000 < U32
    ensures Integrate(EnergyState(100.0, t), 60.0, t + 1800000).accumulated == 130.0
  {
  }

  /** After a reset at clock value `t > 0`, the next valid reading's energy is
      just the energy of the interval since `t`: nothing of the total before
      the reset survives. */
  lemma ReadingAfterReset(t: nat, power: real, now: nat)
    requires 0 < t < U32 && now < U32
    ensures Integrate(EnergyState(0.0, t), power, now).accumulated * MS_PER_HOUR
            == power * WrapSub(now, t) as real
  {
  }

  /** Apparent 100 VA against real 80 W: distortion 60 W, THD 75 %. */
  lemma DistortionExample(sqrt: real -> real)
    requires IsSqrt(sqrt)
    ensures DistortionOf(100.0, 80.0, sqrt) == Distortion(60.0, 75.0)
  {
    SqrtUnique(sqrt, 3600.0, 60.0);
  }

  /** Apparent power below real power (10 VA against 12 W) means no
      distortion is reported. */
  lemma DistortionGuardExample(sqrt: real -> real)
    requires IsSqrt(sqrt)
    ensures DistortionOf(10.0, 12.0, sqrt) == Distortion(0.0, 0.0)
  {
  }

  /** The quality formula applies (THD at most 100 %) exactly when the
      distortion power does not exceed the real power. */
  lemma ThdInRange(apparent: real, power: real, sqrt: real -> real)
    requires IsSqrt(sqrt) && apparent >= power > 0.0
    ensures var d := DistortionOf(apparent, power, sqrt); d.thd <= 100.0 <==> d.power <= power
  {
    var d := DistortionOf(apparent, power, sqrt);
    PercentAtMostWhole(d.power, power, d.thd);
  }

  lemma PercentAtMostWhole(part: real, whole: real, pct: real)
    requires whole > 0.0 && pct * whole == 100.0 * part
    ensures pct <= 100.0 <==> part <= whole
  {
    if pct <= 100.0 {
      assert pct * whole <= 100.0 * whole;
    } else {
      assert pct * whole > 100.0 * whole;
    }
  }
}
