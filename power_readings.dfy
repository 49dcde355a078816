/** The reading record the power meter produces, and the process-wide energy
    accumulator (the two statics of `PowerReadings`) with its reset. */
module Readings {
  import opened Arith

  /** One sampling cycle's reading. Frequency and power factor are stored as
      the meter reported them, so they may be NaN (`None`) even on a valid
      reading; every other field is a defined number. */
  datatype PowerReadings = PowerReadings(
    voltage: real,
    current: real,
    power: real,
    energy: real,
    frequency: Option<real>,
    powerFactor: Option<real>,
    apparentPower: real,
    reactivePower: real,
    loadImpedance: real,
    distortionPower: real,
    thd: real,
    powerQuality: real,
    isValid: bool,
    isCharging: bool)

  /** Every numeric field other than `energy` is zero. */
  predicate ZeroMetrics(r: PowerReadings) {
    && r.voltage == 0.0 && r.current == 0.0 && r.power == 0.0
    && r.frequency == Some(0.0) && r.powerFactor == Some(0.0)
    && r.apparentPower == 0.0 && r.reactivePower == 0.0
    && r.loadImpedance == 0.0 && r.distortionPower == 0.0
    && r.thd == 0.0 && r.powerQuality == 0.0
  }

  /** A default-constructed record: all numbers zero, both flags false. */
  function DefaultReadings(): (r: PowerReadings)
    ensures ZeroMetrics(r) && r.energy == 0.0
    ensures !r.isValid && !r.isCharging
  {
    PowerReadings(0.0, 0.0, 0.0, 0.0, Some(0.0), Some(0.0),
                  0.0, 0.0, 0.0, 0.0, 0.0, 0.0, false, false)
  }

  /** The abstract value of the accumulator: total energy in Wh and the clock
      value (ms) of the last valid measurement, 0 meaning "none yet". */
  datatype EnergyState = EnergyState(accumulated: real, lastTime: nat)

  /** The process-wide statics `accumulatedEnergy` and `lastMeasurementTime`. */
  class EnergyAccumulator {
    var accumulatedEnergy: real
    var lastMeasurementTime: nat

    ghost predicate Valid()
      reads this
    {
      lastMeasurementTime < U32
    }

    function State(): EnergyState
      reads this
    {
      EnergyState(accumulatedEnergy, lastMeasurementTime)
    }

    /** Start-up: both statics start at zero; a previously saved energy is
        then adopted when one was found and it is not negative. */
    constructor (saved: Option<real>)
      ensures Valid()
      ensures lastMeasurementTime == 0
      ensures saved.Some? && saved.value >= 0.0 ==> accumulatedEnergy == saved.value
      ensures !(saved.Some? && saved.value >= 0.0) ==> accumulatedEnergy == 0.0
    {
      accumulatedEnergy := 0.0;
      lastMeasurementTime := 0;
      if saved.Some? && saved.value >= 0.0 {
        accumulatedEnergy := saved.value;
      }
    }

    /** `resetEnergy`: zero the total and restart the interval at `now`; only
        the two statics change. */
    method ResetEnergy(now: nat)
      requires Valid() && now < U32
      modifies this
      ensures Valid()
      ensures State() == EnergyState(0.0, now)
    {
      accumulatedEnergy := 0.0;
      lastMeasurementTime := now;
    }
  }
}
