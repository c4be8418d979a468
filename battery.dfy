/**
 * The battery monitor: every six seconds the ADC reading of the halved
 * battery voltage is doubled back to millivolts and mapped linearly onto a
 * percentage between 3200 mV (empty) and 4100 mV (full).
 */
module Battery {
  import opened Wrappers

  const U32_MODULUS: nat := 0x1_0000_0000
  const ADC_MODULUS: nat := 0x1_0000
  const FULL_MV: nat := 4100
  const EMPTY_MV: nat := 3200
  /** The seconds between two readings. */
  const PERIOD_SECS: nat := 6

  /** The battery voltage in millivolts: the reading is half of it. */
  function Voltage(adc: nat): (v: nat)
    requires adc < ADC_MODULUS
    ensures v < U32_MODULUS && v % 2 == 0
  {
    adc * 2
  }

  /**
   * The percentage as written: the voltage capped at 4100 mV, minus 3200,
   * times 100, over 900, all in u32 arithmetic that wraps.
   */
  function PercentAsWritten(voltage: nat): nat
    requires voltage < U32_MODULUS
  {
    var currentV := if FULL_MV < voltage then FULL_MV else voltage;
    (((currentV - EMPTY_MV) % U32_MODULUS) * 100 % U32_MODULUS) / (FULL_MV - EMPTY_MV)
  }

  /** Below 3200 mV the subtraction wraps round and the percentage is far above 100. */
  lemma AsWrittenUnderflows()
    ensures PercentAsWritten(Voltage(1500)) == 4_772_163
  {
  }

  /** The percentage with the voltage clamped to [3200, 4100] mV before the subtraction. */
  function Percent(voltage: nat): (p: nat)
    ensures p <= 100
    ensures voltage >= FULL_MV ==> p == 100
    ensures voltage <= EMPTY_MV ==> p == 0
  {
    var currentV := if voltage > FULL_MV then FULL_MV else if voltage < EMPTY_MV then EMPTY_MV else voltage;
    (currentV - EMPTY_MV) * 100 / (FULL_MV - EMPTY_MV)
  }

  /** Where the written code does not wrap, it computes the clamped percentage. */
  lemma AsWrittenAgreesAboveEmpty(voltage: nat)
    requires EMPTY_MV <= voltage < U32_MODULUS
    ensures PercentAsWritten(voltage) == Percent(voltage)
  {
  }

  /** More voltage never shows less charge. */
  lemma PercentMonotone(v1: nat, v2: nat)
    requires v1 <= v2
    ensures Percent(v1) <= Percent(v2)
  {
    var c1 := if v1 > FULL_MV then FULL_MV else if v1 < EMPTY_MV then EMPTY_MV else v1;
    var c2 := if v2 > FULL_MV then FULL_MV else if v2 < EMPTY_MV then EMPTY_MV else v2;
    assert (c1 - EMPTY_MV) * 100 <= (c2 - EMPTY_MV) * 100;
  }

  /** `Battery`'s public state. */
  class BatteryMonitor {
    var voltage: nat
    var percent: nat

    constructor ()
      ensures voltage == 0 && percent == 0
    {
      voltage := 0;
      percent := 0;
    }

    /** One pass of `test_bat_adc`; `reading` is `None` for an ADC error, which changes nothing. */
    method Sample(reading: Option<nat>)
      requires reading.Some? ==> reading.value < ADC_MODULUS
      modifies this
      ensures reading.None? ==> voltage == old(voltage) && percent == old(percent)
      ensures reading.Some? ==> voltage == Voltage(reading.value) && percent == Percent(voltage)
      ensures percent <= 100 || percent == old(percent)
    {
      if reading.Some? {
        voltage := reading.value * 2;
        var max := FULL_MV;
        var min := EMPTY_MV;
        var currentV := if max < voltage then max else voltage;
        currentV := if currentV < min then min else currentV;
        percent := (currentV - min) * 100 / (max - min);
      }
    }
  }
}
