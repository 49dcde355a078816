# ESP32 energy monitor: power metrics and battery estimator in Dafny

This project models the two computational parts of an ESP32 energy-monitor
firmware and proves properties of each.

- **Power metrics engine** (`SystemManager::getPowerReadings`, the
  `PowerReadings` record and its statics). Each cycle takes the meter's
  voltage, current, power, frequency and power factor, any of which may be
  NaN. It decides whether the reading is valid. It integrates energy into a
  process-wide accumulator, where "last measurement time 0" means "first
  sample, skip integration". It then derives apparent power, reactive power,
  load impedance, distortion power, THD and a power-quality index, each
  behind its own guard. An invalid reading gives a fallback record: all
  zeros, except that the energy total is kept. `resetEnergy` zeroes the total
  and restarts the interval.
- **Battery estimator** (`BatteryMonitor::getBatteryVoltage` and
  `getBatteryPercentage`). A batch accumulator folds in one 12-bit ADC sample
  per call, at most one per millisecond. On the 20th sample it reports the
  integer mean and starts a new batch. Before that it reports the mean of the
  partial batch. The voltage is scaled by the resistor divider and mapped to
  a percentage. The map clamps at both ends of a fixed descending discharge
  curve, interpolates linearly in the first segment that contains the
  voltage, and truncates the result.

Files:

- `arith.dfy` (module `Arith`): the NaN-aware `Option`, and 32-bit clock
  subtraction `WrapSub`. It also holds `IsSqrt`, which says what the library
  square root must satisfy, and C's float-to-integer truncation `Trunc`.
- `power_readings.dfy` (module `Readings`): the `PowerReadings` record, its
  default, and the class `EnergyAccumulator`. That class holds the two
  statics `accumulatedEnergy` and `lastMeasurementTime` and has
  `ResetEnergy`.
- `system_manager.dfy` (module `SystemManager`): the guarded metric functions,
  energy integration as a function on the accumulator's state, and the
  method `GetPowerReadings`. The method updates the accumulator and is proved
  against those functions.
- `battery_monitor.dfy` (module `BatteryMonitor`): the divider constants, the
  discharge curve, its interpolation and the scan method. It also has the
  accumulator as a state function `SampleStep`, and the class `Monitor`,
  whose fields are the function statics of `getBatteryVoltage`.

Modelling choices:

- Floats are `real`. A driver value that may be NaN is an `Option<real>`,
  with `None` meaning NaN.
- A valid reading keeps frequency and power factor exactly as the meter gave
  them, so they may be NaN. A NaN power factor makes the reactive-power guard
  `pf*pf <= 1` false, so reactive power is 0. It also makes power quality
  NaN, which the final scrub turns into 0; `PowerQuality` returns 0 for it.
  THD is always a number in the model, so the scrub of THD changes nothing.
- The library square root is a parameter `sqrt: real -> real` constrained by
  `IsSqrt`: for every `x >= 0`, `sqrt(x) >= 0` and `sqrt(x) * sqrt(x) == x`.
- The ADC calibration `esp_adc_cal_raw_to_voltage` is a parameter
  `rawToMillivolts: nat -> nat` (raw reading to millivolts).
- The clock `millis()` is a parameter `now < 2^32`. So is the ADC reading
  `sample <= 4095`: the value `analogRead` would return if it is called.
  The charging pin's reading is the parameter `chargingRaw`.
- `millis()` is 32 bits wide on this target. Both elapsed-time subtractions
  wrap modulo 2^32 (`WrapSub`). The battery gate `now - lastSampleTime >= 1`
  therefore holds exactly when the clock value has changed.
- The definitions of the two energy statics are not among the modelled
  files; their zero initial values are assumed. The constructor of `EnergyAccumulator` also models the start-up
  load of saved energy: a saved value is used only if one exists and it is
  `>= 0`.
- Accumulated energy is non-decreasing only when `power >= 0`: the code adds
  `power * hours` whatever the sign of `power` (`SystemManager.Integrate`).
- The final NaN scrub matters: with a NaN power factor on a valid reading,
  power quality is NaN until src/system_manager.cpp:103 sets it to 0.

## Model

| member | source | states |
|---|---|---|
| `Arith.WrapSub` | src/system_manager.cpp:51 | 32-bit unsigned subtraction: the plain difference when `a >= b`, otherwise `2^32 + a - b`; always below 2^32 |
| `Arith.WrapSubZero` | src/battery_monitor.cpp:45 | the wrapped difference is 0 exactly when the two clock values are equal |
| `Arith.Trunc` | src/battery_monitor.cpp:88 | conversion to an integer truncates toward zero: for `x >= 0` the result `n` satisfies `0 <= n <= x < n + 1`, and symmetrically for negative `x` |
| `Arith.TruncMonotone` | src/battery_monitor.cpp:88 | truncation is monotone |
| `Readings.DefaultReadings` | include/power_readings.h:4-18 | a default record has every numeric field 0 and both flags false |
| `Readings.EnergyAccumulator.constructor` | src/firebase_manager.cpp:207-219 | timestamp starts at 0; energy is the saved value if one exists and it is `>= 0`, else 0 |
| `Readings.EnergyAccumulator.ResetEnergy` | include/power_readings.h:23-26 | afterwards energy is 0 and the timestamp is `now`; the accumulator's two fields are all it changes |
| `SystemManager.SampleValid` | src/system_manager.cpp:45-46 | a reading is usable exactly when voltage, current and power are all numbers; `GetPowerReadings` reports `isValid` exactly when it holds |
| `SystemManager.IsCharging` | src/system_manager.cpp:30-31 | charging exactly when the raw pin reading exceeds 1300 (i.e. reading/1000 > 1.3) |
| `SystemManager.Integrate` | src/system_manager.cpp:50-56 | timestamp becomes `now`; with timestamp 0 energy is unchanged; otherwise energy grows by `power * elapsed_ms / 3600000`, with elapsed time taken on the 32-bit clock; with `power >= 0` energy never decreases |
| `SystemManager.ReactivePower` | src/system_manager.cpp:69-75 | 0 when pf is NaN or `pf^2 > 1`; otherwise `reactive^2 + (apparent*pf)^2 == apparent^2`; for `apparent >= 0`, `0 <= reactive <= apparent` |
| `SystemManager.ReactiveTriangle` | src/system_manager.cpp:72 | `apparent * sqrt(1 - pf^2)` closes the power triangle with `apparent * pf` |
| `SystemManager.ReactiveLeg` | src/system_manager.cpp:72 | with `s` the root of `1 - pf^2` in [0, 1], the leg `apparent * s` closes the triangle and lies in `[0, apparent]` for non-negative apparent power |
| `SystemManager.LoadImpedance` | src/system_manager.cpp:77 | for current > 0, `impedance * current == voltage`; otherwise 0, so there is never a division by zero |
| `SystemManager.DistortionOf` | src/system_manager.cpp:80-92 | distortion and THD are never negative; if `apparent >= power > 0` then `distortion^2 + power^2 == apparent^2` and `thd * power == 100 * distortion`; otherwise both are 0 |
| `SystemManager.DistortionRadicandNonNegative` | src/system_manager.cpp:81-82 | under the outer guard the radicand `apparent^2 - power^2` is never negative, so the inner guard always passes |
| `SystemManager.ThdInRange` | src/system_manager.cpp:95 | under the distortion guard, THD <= 100 exactly when distortion power <= real power |
| `SystemManager.PowerQuality` | src/system_manager.cpp:95-103 | NaN pf gives 0 (scrubbed); for THD in [0,100], `quality * 100 == pf * (100 - thd)` and `abs(quality) <= abs(pf)`; otherwise the raw pf; THD 0 keeps pf |
| `SystemManager.GetPowerReadings` | src/system_manager.cpp:24-132 | `isValid` iff voltage, current and power are not NaN. Invalid: all metrics 0, energy is the old total, accumulator untouched. Valid: accumulator advanced by `Integrate`, energy is the new total, and every derived field is given by the guarded functions |
| `SystemManager.HalfHourAtSixtyWatts` | src/system_manager.cpp:50-56 | 100 Wh plus 60 W for 30 minutes gives 130 Wh |
| `SystemManager.ReadingAfterReset` | include/power_readings.h:23-26 | after a reset at time `t > 0`, the next valid reading's energy is `power * elapsed(t, now) / 3600000`, so nothing of the old total remains |
| `SystemManager.DistortionExample` | src/system_manager.cpp:80-84 | apparent 100, power 80 gives distortion 60 and THD 75 |
| `SystemManager.DistortionGuardExample` | src/system_manager.cpp:80-92 | apparent 10 below power 12 gives distortion 0 and THD 0 |
| `BatteryMonitor.ScalerAboveOne` | src/battery_monitor.cpp:7-9 | the divider factor `(96.5 + 45.5) / 45.5` equals 284/91 and is greater than 1 |
| `BatteryMonitor.BatteryLevelsDescending` | src/battery_monitor.cpp:15-24 | the curve has 8 anchors from (4.20, 100) to (2.70, 0), strictly decreasing in both volts and percent |
| `BatteryMonitor.FirstBracket` | src/battery_monitor.cpp:80-81 | the scan finds the first segment from `from` whose end points enclose the voltage: it encloses it, no earlier segment does, and `|t| - 1` means none |
| `BatteryMonitor.Interpolate` | src/battery_monitor.cpp:87 | the segment's linear interpolation; `InterpolateEnds`, `InterpolateWithin` and `InterpolateMonotone` show it meets both anchors, stays between their percentages and rises with voltage |
| `BatteryMonitor.InterpolateEnds` | src/battery_monitor.cpp:87 | the interpolation gives each anchor's own percentage at its voltage |
| `BatteryMonitor.InterpolateWithin` | src/battery_monitor.cpp:82-87 | inside a segment the interpolated value lies in `[p2, p1]` |
| `BatteryMonitor.InterpolateMonotone` | src/battery_monitor.cpp:87 | within a segment the interpolation does not decrease as the voltage rises |
| `BatteryMonitor.BracketExists` | src/battery_monitor.cpp:80-94 | a voltage strictly between the last and first anchors lies in some segment, so the fallback `return 0` is unreachable |
| `BatteryMonitor.CurvePercent` | src/battery_monitor.cpp:76-94 | clamp at both ends, else truncate the interpolation in the first enclosing segment, with 0 as fallback; `CurvePercentRange`, `CurvePercentMonotone` and `PercentOnCurve` are about it |
| `BatteryMonitor.CurvePercentRange` | src/battery_monitor.cpp:76-90 | the curve's result lies between the truncated percentages of its last and first anchors |
| `BatteryMonitor.CurvePercentMonotone` | src/battery_monitor.cpp:76-90 | a higher voltage never gives a lower percentage |
| `BatteryMonitor.BatteryPercentOf` | src/battery_monitor.cpp:76-94 | the curve map over the firmware's eight anchors; the result is always within 0..100 |
| `BatteryMonitor.BatteryPercentClamps` | src/battery_monitor.cpp:76-77 | at 4.20 V and above the result is 100; at 2.70 V and below it is 0 |
| `BatteryMonitor.BatteryPercentExample` | src/battery_monitor.cpp:80-90 | 3.9 V gives 70 % |
| `BatteryMonitor.BatteryPercentNearCutoff` | src/battery_monitor.cpp:80-90 | 3.31 V gives 11 % on the 3.40 V to 3.30 V segment |
| `BatteryMonitor.PercentOnCurve` | src/battery_monitor.cpp:73-94 | the clamp tests and the scan with its early return compute the curve's percentage (first enclosing segment, truncated; 0 if none) |
| `BatteryMonitor.BatteryPercent` | src/battery_monitor.cpp:71-95 | the firmware's map from voltage to percent, always within 0..100 |
| `BatteryMonitor.SampleDue` | src/battery_monitor.cpp:45 | a sample is taken when at least `SAMPLE_INTERVAL` (1) ms have passed on the wrapping clock; `SampleDueIffClockMoved` shows that means the clock value changed |
| `BatteryMonitor.SampleDueIffClockMoved` | src/battery_monitor.cpp:45 | on the wrapping clock, a sample is due exactly when the clock value differs from the last sample time |
| `BatteryMonitor.PartialAverage` | src/battery_monitor.cpp:67 | the mean is the integer quotient: `avg * count <= sum < (avg + 1) * count`; with no samples the divisor is 1 |
| `BatteryMonitor.AverageInRange` | src/battery_monitor.cpp:67 | the mean of 12-bit samples is at most 4095 |
| `BatteryMonitor.SampleStep` | src/battery_monitor.cpp:36-69 | keeps `sampleCount < 20` and `adcSum <= sampleCount * 4095`; not due: nothing changes; due: timestamp becomes now and one sample is added; the 20th sample yields the integer mean of the sum and resets count and sum; otherwise yields the partial mean |
| `BatteryMonitor.BatchAccumulates` | src/battery_monitor.cpp:45-62 | calls at a moving clock add their samples one by one; the call that fills the batch reports `(sum of its samples) / 20` and empties the accumulator |
| `BatteryMonitor.BatchMean` | src/battery_monitor.cpp:51-52 | from an empty accumulator, 20 calls at a moving clock report the integer mean of their 20 samples |
| `BatteryMonitor.ToBatteryVolts` | src/battery_monitor.cpp:53-54 | battery volts are non-negative and satisfy `v * 1000 * R2 == millivolts * (R1 + R2)` |
| `BatteryMonitor.Monitor.constructor` | src/battery_monitor.cpp:37-39 | the accumulator starts empty at time 0 |
| `BatteryMonitor.Monitor.GetBatteryVoltage` | src/battery_monitor.cpp:36-69 | keeps the invariant; the new state and the returned voltage are those of `SampleStep`, converted by the calibration and the divider; the 32-bit sum never wraps |
| `BatteryMonitor.Monitor.GetBatteryPercentage` | src/battery_monitor.cpp:71-95 | one voltage reading mapped onto the curve, within 0..100 |

## Left out

- WiFi connection and reconnection, the LED and pin setup, the meter's serial
  set-up, NTP time sync and debug printing. These are hardware and network
  I/O.
- All of the cloud-store glue: JSON building, authentication, the heartbeat,
  and the transport of the reset flag. The one rule kept is that saved energy
  is adopted only if it is `>= 0`; it is in the accumulator's constructor.
- The main loop: the fixed polling interval, and the order "reset, then clear
  the flag". This is orchestration over I/O.
- IEEE float behaviour: rounding, infinities, and NaN arising inside the
  arithmetic. With exact reals the guarded square roots and divisions are
  always defined. Rounding can change a truncated percentage by one: 3.31 V
  gives exactly 11 on the 3.40 V / 20 % to 3.30 V / 10 % segment
  (`BatteryMonitor.BatteryPercentNearCutoff`), but 10 in single precision.
- `esp_adc_cal_characterize` and the calibration curve. The conversion is an
  arbitrary function parameter.
- The calls to `analogRead`, the meter driver and `millis()`. Their results
  are method parameters.
