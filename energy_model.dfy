/**
 * The records the energy-mix service reads and produces.
 *
 * Timestamps are the ISO 8601 strings the Carbon Intensity API supplies;
 * they are never parsed here. The calendar date of a slot's start (what
 * `ZonedDateTime.parse(from).toLocalDate()` yields) is taken as a given
 * integer day key, so ordering dates is ordering integers.
 * Percentages are reals rather than IEEE doubles.
 */
module EnergyModel {

  /** An ISO 8601 instant, kept as the text the API sent. */
  type Timestamp = string

  /** A calendar day; larger keys are later days. */
  type DateKey = int

  /** One fuel's share of generation in one half-hour slot. */
  datatype GenerationItem = GenerationItem(fuel: string, perc: real)

  /** One half-hour slot of the forecast. */
  datatype GenerationData = GenerationData(
    from: Timestamp,
    to: Timestamp,
    date: DateKey,
    generationMix: seq<GenerationItem>)

  /** One fuel's share in a daily summary. */
  datatype EnergySource = EnergySource(name: string, percentage: real, renewable: bool)

  /** The summary of one calendar day. */
  datatype EnergyReport = EnergyReport(
    date: DateKey,
    sources: seq<EnergySource>,
    cleanEnergyPercent: real)

  /** The best window found by the optimiser. */
  datatype OptimalWindowReport = OptimalWindowReport(
    start: Timestamp,
    end: Timestamp,
    avgCleanEnergyPercent: real)
}
