/**
 * The optimal-window endpoint's input handling: the requested number of
 * hours is forced into [1, 6] before the optimiser is called. Routing and
 * HTTP status handling are not part of this model.
 */
module EnergyController {
  import opened Wrappers
  import opened EnergyModel
  import EnergyService

  const MinHours: int := 1
  const MaxHours: int := 6

  /** The window length the endpoint passes on, for a requested `hours`. */
  function ClampHours(hours: int): (h: int)
    ensures MinHours <= h <= MaxHours
    ensures MinHours <= hours <= MaxHours ==> h == hours
  {
    if hours < MinHours then MinHours else if hours > MaxHours then MaxHours else hours
  }

  /** Requests below the range become 1 hour, requests above it 6 hours. */
  lemma ClampHoursOutOfRange(hours: int)
    ensures hours < MinHours ==> ClampHours(hours) == MinHours
    ensures hours > MaxHours ==> ClampHours(hours) == MaxHours
  {
  }

  /** Clamping an already clamped value changes nothing. */
  lemma ClampHoursIdempotent(hours: int)
    ensures ClampHours(ClampHours(hours)) == ClampHours(hours)
  {
  }

  /** The distance between two whole numbers of hours. */
  function Distance(a: int, b: int): nat {
    if a <= b then b - a else a - b
  }

  /** The clamped value is the point of [1, 6] nearest to the request. */
  lemma ClampHoursNearest(hours: int, x: int)
    requires MinHours <= x <= MaxHours
    ensures Distance(ClampHours(hours), hours) <= Distance(x, hours)
  {
  }

  /**
   * `getOptimalWindow`: overwrites out-of-range `hours` with the nearest
   * bound, then asks the optimiser for windows of `2 * hours` slots, a
   * count that, by `ClampHours`' contract, lies in [2, 12] and is never 0.
   */
  method GetOptimalWindow(forecast: seq<GenerationData>, hours: int)
    returns (r: Option<OptimalWindowReport>)
    ensures EnergyService.ReportsBestWindow(forecast, 2 * ClampHours(hours), r)
    ensures EnergyService.AbsentExactlyWhenNoWindow(forecast, 2 * ClampHours(hours), r)
  {
    var h := hours;
    if h < 1 {
      h := 1;
    }
    if h > 6 {
      h := 6;
    }
    assert h == ClampHours(hours);
    r := EnergyService.FindOptimalWindow(forecast, h);
  }
}
