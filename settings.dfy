/** The build-time configuration of the modem.

    The firmware derives these from `SOFT_MODEM_BAUD_RATE`, `SOFT_MODEM_LOW_FREQ`,
    `SOFT_MODEM_HIGH_FREQ`, the CPU clock and the timer prescaler, partly through
    floating-point products converted to `uint8_t` at compile time. The model takes the
    converted values as given instead of recomputing them. */
module Settings {
  import opened Bytes

  datatype Config = Config(
    /** `(uint8_t)(TCNT_HIGH_FREQ * 0.5)`: intervals below it are noise. */
    noiseFloor: Byte,
    /** `(uint8_t)(TCNT_LOW_FREQ * 0.8)` and `(uint8_t)(TCNT_LOW_FREQ * 1.2)`: the low-tone band. */
    lowMin: Byte,
    lowMax: Byte,
    /** `(uint8_t)(TCNT_HIGH_FREQ * 0.8)` and `(uint8_t)(TCNT_HIGH_FREQ * 1.2)`: the high-tone band. */
    highMin: Byte,
    highMax: Byte,
    /** `(uint8_t)(TCNT_BIT_PERIOD * 0.7)`: low-tone energy that signals a start bit. */
    startThreshold: Byte,
    /** `(uint8_t)TCNT_BIT_PERIOD`: timer ticks per bit. */
    bitPeriod: Byte,
    /** `SOFT_MODEM_LOW_CNT` and `SOFT_MODEM_HIGH_CNT`: full tone cycles per bit. */
    lowCycles: nat,
    highCycles: nat,
    /** `SOFT_MODEM_MAX_RX_BUFF`: slots of the receive ring. */
    bufSize: nat)
  {
    /** The ring indices are `uint8_t` and are reduced modulo `bufSize`. */
    predicate Valid() {
      1 <= bufSize <= 256
    }
  }

  /** The constants of the default build (1225 baud, 4900 Hz / 7350 Hz tones, 32-byte ring)
      on an 8 MHz part, where one timer tick (clk/32) is 4 microseconds: a bit is
      816 us = 204 ticks, a low tone period is 204 us = 51 ticks and a high tone period is
      136 us = 34 ticks. The clock frequency is an assumption of this example only; the
      rest of the model holds for every valid configuration. Note that the two bands
      share the value 40. */
  function Default8MHz(): (c: Config)
    ensures c.Valid()
  {
    Config(noiseFloor := 17, lowMin := 40, lowMax := 61, highMin := 27, highMax := 40,
           startThreshold := 142, bitPeriod := 204, lowCycles := 4, highCycles := 6, bufSize := 32)
  }
}
