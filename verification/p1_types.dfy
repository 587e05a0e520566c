/**
 * Value types shared by the framing, logging and web modules.
 *
 * The firmware's reading record (`emucs_p1_data_t`) is defined in a header
 * that is not part of this model; only the fields that the logger and the
 * web helpers read are represented here.
 */
module P1Types {

  /** A single-precision float. The modelled code only copies these values,
      so they are represented by their 32-bit patterns. */
  type Float32 = bv32

  function Min(a: int, b: int): int { if a < b then a else b }

  /** A C `uint16_t`. */
  newtype uint16 = x: int | 0 <= x < 0x1_0000

  /** State of the meter's breaker. The firmware stores it as a C enum; a
      value outside the three named constants is kept as `Unlisted`. */
  datatype BreakerState = Disconnected | Connected | ReadyForConnection | Unlisted(raw: int)

  /** One entry of the trailing-13-months maximum-demand list. */
  datatype MaxDemandRecord = MaxDemandRecord(timestampAppearance: int, maxDemand: Float32)

  /** Number of entries in the maximum-demand-year array of a reading. */
  const MaxDemandYearLength: nat := 13

  /** The fields of one parsed meter reading that this model reads. */
  datatype P1Data = P1Data(
    msgTimestamp: int,
    currentAvgDemand: Float32,
    currentPowerUsage: Float32,
    maxDemandYear: seq<MaxDemandRecord>,
    breakerState: BreakerState
  )
}
