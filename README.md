# Energy-mix forecast service, modelled in Dafny

This project models the core of a Spring service that turns the Carbon
Intensity API's half-hour generation-mix forecast for Great Britain into:

- **daily reports** (`EnergyService.getThreeDayForecast`): the slots are
  grouped by the calendar date of their start. Each fuel's percentage is
  averaged over the items of that day that name the fuel. Each fuel is
  classified renewable or not. The day's entries are normalised to total
  100 unless they are already within 0.5 of 100 or total 0. The renewable
  entries are summed into the day's clean-energy percentage. Reports are
  ordered by date.
- **the cleanest window** (`EnergyService.findOptimalWindow`): a request
  for `hours` becomes `2 * hours` half-hour slots. Every contiguous window
  of that many slots is scanned. The first window with the highest average
  per-slot clean percentage is kept (strict `>` against a running maximum
  that starts at -1), and its start and end times are reported.
- **the endpoint's clamp** (`EnergyController.getOptimalWindow`): the
  requested `hours` is forced into [1, 6] before the optimiser is called.

Files:

- `wrappers.dfy`: `Option`, standing in for Java's `null`.
- `energy_model.dfy`: the records (`GenerationItem`, `GenerationData`,
  `EnergySource`, `EnergyReport`, `OptimalWindowReport`) as datatypes.
- `energy_service.dfy`: the service. `findOptimalWindow` and
  `calculateCleanPercentForSlot` are loops, so they are methods proved
  against specification functions (`WindowAverage`, `SlotCleanPercent`).
  The stream pipelines (`getThreeDayForecast`, `calculateDailyAverage`,
  `normalizeTo100Percent`) and the `isRenewable` switch are functions.
- `energy_controller.dfy`: the clamp and its hand-off to the optimiser.
- `energy_service_test.dfy`: the unit-test scenarios, stated against the model.

Modelling decisions:

- The list fetched by the API client is a parameter. An empty list stands
  for a failed fetch.
- Percentages are `real`, so "the rescaled entries total 100" holds exactly.
- A slot's start date is an integer day key taken as given (a larger key is
  a later day). The `from`/`to` timestamps are kept as the strings the API
  sent, and the window report carries them unparsed.
- In the source, a day's entries come out of a `HashMap`, in no specified
  order. The model lists them in order of first mention. The general
  contracts speak only of the set of names and of each name's value; the
  scenario lemmas use the model's order.
- The source maps each date group to a report and then sorts the reports
  by date. The model sorts the distinct dates and then maps them. Each
  report carries its group's date, so both give the same list.

On the unit test's data (coal 100 in one slot, wind 100 in two), the code
averages each fuel over the items naming it, so coal and wind both average
100. The raw total is then 200, both are rescaled to 50, and the clean
percentage is 50 (`EnergyServiceTest.MockForecast`).

## Model

| member | source | states |
|---|---|---|
| `EnergyService.IsRenewable` | backend/src/main/java/com.msyg.energymix/service/EnergyService.java:141-146 | definition: a fuel is renewable when its lower-cased name is one of wind, solar, hydro, biomass (characterised by `IsRenewableExactly`) |
| `EnergyService.ToLower` | backend/src/main/java/com.msyg.energymix/service/EnergyService.java:142 | definition: `toLowerCase`, character by character, for ASCII letters |
| `EnergyService.IsRenewableExactly` | backend/src/main/java/com.msyg.energymix/service/EnergyService.java:141-146 | a fuel is renewable exactly when it spells wind, solar, hydro or biomass in any letter case; every other string is non-renewable |
| `EnergyService.IsRenewableIgnoresCase` | backend/src/main/java/com.msyg.energymix/service/EnergyService.java:141-146 | two names equal up to letter case get the same classification |
| `EnergyService.LowerMatchesWord` | backend/src/main/java/com.msyg.energymix/service/EnergyService.java:142 | lower-casing a name gives a given lower-case word exactly when the name equals that word ignoring case |
| `EnergyService.CalculateCleanPercentForSlot` | backend/src/main/java/com.msyg.energymix/service/EnergyService.java:128-139 | the loop returns renewable/total × 100 when the slot's total is positive, and 0 otherwise |
| `EnergyService.RenewableWithinTotal` | backend/src/main/java/com.msyg.energymix/service/EnergyService.java:129-137 | with no negative item, the renewable part of a slot lies between 0 and its total |
| `EnergyService.SlotCleanPercentBounds` | backend/src/main/java/com.msyg.energymix/service/EnergyService.java:138 | with no negative item, a slot's clean percentage lies in [0, 100] |
| `EnergyService.FindOptimalWindow` | backend/src/main/java/com.msyg.energymix/service/EnergyService.java:47-92 | a report is that of the window whose average is ≥ every window's and > every earlier window's, from `from` of slot b to `to` of slot b+2·hours−1, with that average; there is no report exactly when the input is empty, shorter than 2·hours, or no window averages above -1 |
| `EnergyService.BestWindowUnique` | backend/src/main/java/com.msyg.energymix/service/EnergyService.java:73-77 | the tie-break leaves exactly one best window |
| `EnergyService.CleanSumBounds` | backend/src/main/java/com.msyg.energymix/service/EnergyService.java:64-69 | with no negative percentage, a window's clean sum lies in [0, 100 × its length] |
| `EnergyService.WindowAverageBounds` | backend/src/main/java/com.msyg.energymix/service/EnergyService.java:71 | with no negative percentage, every window average lies in [0, 100] |
| `EnergyService.ReportedAverageBounds` | backend/src/main/java/com.msyg.energymix/service/EnergyService.java:85-89 | with no negative percentage, a reported average lies in [0, 100] |
| `EnergyService.OptimalWindowPresentWhenNonNegative` | backend/src/main/java/com.msyg.energymix/service/EnergyService.java:58-91 | with no negative percentage and at least 2·hours slots there is always a report, because every window averages at least 0, above the initial running maximum of -1 |
| `EnergyService.SourcesTotal` | backend/src/main/java/com.msyg.energymix/service/EnergyService.java:154-156 | definition: the sum of the entries' percentages |
| `EnergyService.Rescale` | backend/src/main/java/com.msyg.energymix/service/EnergyService.java:167-173 | definition: each entry's percentage becomes p / S × 100, name and flag kept, order kept |
| `EnergyService.RescaleTotal` | backend/src/main/java/com.msyg.energymix/service/EnergyService.java:167-173 | rescaling every entry by 100/S turns a total T into T/S × 100 |
| `EnergyService.NormalizeTo100Percent` | backend/src/main/java/com.msyg.energymix/service/EnergyService.java:151-174 | length, order, names and flags are kept. The entries are returned unchanged when the list is empty, its total S is within 0.5 of 100, or S is 0. Otherwise each entry becomes p/S × 100 and the entries total exactly 100 |
| `EnergyService.PercsOfNonEmpty` | backend/src/main/java/com.msyg.energymix/service/EnergyService.java:98-103 | a fuel has values to average exactly when some item of the day names it |
| `EnergyService.FuelTotals` | backend/src/main/java/com.msyg.energymix/service/EnergyService.java:100-103 | every fuel in the grouping accumulator has a positive item count |
| `EnergyService.FuelTotalsCount` | backend/src/main/java/com.msyg.energymix/service/EnergyService.java:98-103 | the accumulator holds a fuel exactly when some item names it, and then holds the sum and the number of those items |
| `EnergyService.Flatten` | backend/src/main/java/com.msyg.energymix/service/EnergyService.java:99 | definition: the items of all of a day's slots, slot by slot (the `flatMap`) |
| `EnergyService.AverageByFuel` | backend/src/main/java/com.msyg.energymix/service/EnergyService.java:100-103 | definition: for each fuel named, its accumulated sum divided by its accumulated count (`groupingBy` with `averagingDouble`) |
| `EnergyService.AverageIsMeanOfNamingItems` | backend/src/main/java/com.msyg.energymix/service/EnergyService.java:98-103 | each fuel of the day gets an average equal to the mean of the percentages of the items naming it; the divisor is the number of those items, not of slots |
| `EnergyService.DistinctFuels` | backend/src/main/java/com.msyg.energymix/service/EnergyService.java:105-111 | the averaged fuels, each exactly once |
| `EnergyService.RawSources` | backend/src/main/java/com.msyg.energymix/service/EnergyService.java:98-111 | one entry per fuel named in the day, with distinct names, holding the fuel's mean and its classification |
| `EnergyService.RawSourcesFacts` | backend/src/main/java/com.msyg.energymix/service/EnergyService.java:105-111 | the entries built from the averages cover exactly the day's fuels and hold their means |
| `EnergyService.NamesAgree` | backend/src/main/java/com.msyg.energymix/service/EnergyService.java:167-173 | normalising keeps the set of names |
| `EnergyService.SourcesTotalPermutation` | backend/src/main/java/com.msyg.energymix/service/EnergyService.java:154-156 | two lists holding the same entries, in any order, have the same total |
| `EnergyService.DailyTotalIndependentOfOrder` | backend/src/main/java/com.msyg.energymix/service/EnergyService.java:105-111 | any list of the day's entries with distinct names, one per fuel named, each holding the fuel's mean and classification, has the same total S and takes the same normalisation branch as the model's list, whatever its order |
| `EnergyService.RenewableShare` | backend/src/main/java/com.msyg.energymix/service/EnergyService.java:116-119 | definition: the sum of the percentages of the entries flagged renewable |
| `EnergyService.CalculateDailyAverage` | backend/src/main/java/com.msyg.energymix/service/EnergyService.java:96-126 | the report carries its date. It has one renewable-classified entry per fuel of the day, with distinct names. Each percentage is the fuel's mean, or that mean/S × 100 with entries totalling 100 when normalisation rescales. The clean percentage is the sum of the renewable entries, and 0 for a day with no entries |
| `EnergyService.FlattenNonNegative` | backend/src/main/java/com.msyg.energymix/service/EnergyService.java:99 | flattening non-negative slots gives non-negative items |
| `EnergyService.PercsOfSumNonNegative` | backend/src/main/java/com.msyg.energymix/service/EnergyService.java:100-103 | with no negative item, the sum of a fuel's percentages is non-negative |
| `EnergyService.ShareWithinTotal` | backend/src/main/java/com.msyg.energymix/service/EnergyService.java:116-119 | with no negative entry, the renewable share lies between 0 and the entries' total |
| `EnergyService.SourcesTotalNonNegative` | backend/src/main/java/com.msyg.energymix/service/EnergyService.java:154-156 | with no negative entry, the total is non-negative |
| `EnergyService.RawSourcesNonNegative` | backend/src/main/java/com.msyg.energymix/service/EnergyService.java:98-111 | with no negative item, every averaged entry is non-negative |
| `EnergyService.NormalizedNonNegative` | backend/src/main/java/com.msyg.energymix/service/EnergyService.java:151-174 | normalising non-negative entries keeps them non-negative |
| `EnergyService.DailyCleanPercentBounds` | backend/src/main/java/com.msyg.energymix/service/EnergyService.java:113-119 | with no negative percentage, a day's clean percentage is ≥ 0 and < 100.5, and ≤ 100 when the entries were rescaled |
| `EnergyService.InsertDate` | backend/src/main/java/com.msyg.energymix/service/EnergyService.java:40 | inserting a date into a strictly increasing list keeps it strictly increasing and adds exactly that date |
| `EnergyService.SortedDates` | backend/src/main/java/com.msyg.energymix/service/EnergyService.java:32-40 | the distinct dates of a list, each once, in strictly increasing order |
| `EnergyService.DayGroup` | backend/src/main/java/com.msyg.energymix/service/EnergyService.java:32-35 | a day's group holds exactly the slots starting on that date |
| `EnergyService.DayGroupCounts` | backend/src/main/java/com.msyg.energymix/service/EnergyService.java:32-35 | a day's group holds each slot of that date as many times as the input does, repeats included, and no slot of another date |
| `EnergyService.StrictlyIncreasingCard` | backend/src/main/java/com.msyg.energymix/service/EnergyService.java:38-41 | a strictly increasing list has as many elements as distinct dates |
| `EnergyService.ForecastFacts` | backend/src/main/java/com.msyg.energymix/service/EnergyService.java:38-41 | the reports of the sorted dates cover exactly the input's dates, one each |
| `EnergyService.GetThreeDayForecast` | backend/src/main/java/com.msyg.energymix/service/EnergyService.java:26-42 | empty output exactly for empty input. Otherwise there is one report per distinct start date (as many reports as dates), in strictly ascending date order, each the daily average of exactly that date's slots |
| `EnergyController.ClampHours` | backend/src/main/java/com.msyg.energymix/controller/EnergyController.java:36-37 | the clamped value lies in [1, 6], and values already in [1, 6] pass unchanged |
| `EnergyController.ClampHoursOutOfRange` | backend/src/main/java/com.msyg.energymix/controller/EnergyController.java:36-37 | values below 1 become 1 and values above 6 become 6 |
| `EnergyController.ClampHoursIdempotent` | backend/src/main/java/com.msyg.energymix/controller/EnergyController.java:36-37 | clamping twice is clamping once |
| `EnergyController.ClampHoursNearest` | backend/src/main/java/com.msyg.energymix/controller/EnergyController.java:36-37 | the clamped value is the point of [1, 6] at the least integer distance from the request |
| `EnergyController.GetOptimalWindow` | backend/src/main/java/com.msyg.energymix/controller/EnergyController.java:34-41 | the result is the optimal-window result for 2 × the clamped hours: the first best window of that many slots, and no report exactly when the input is empty, too short, or no window averages above -1 |
| `EnergyServiceTest.ClassificationExamples` | backend/src/main/java/com.msyg.energymix/service/EnergyService.java:141-146 | "Wind", "wind" and "BIOMASS" are renewable; "gas", "coal" and "unknown-fuel" are not |
| `EnergyServiceTest.MockWindows` | backend/src/test/java/com.msyg.energymix/service/EnergyServiceTest.java:40-47 | on the test's data (coal, wind, wind), window 1 of 2 slots is the best one, with average 100 |
| `EnergyServiceTest.ShouldFindBestWindowIdeally` | backend/src/test/java/com.msyg.energymix/service/EnergyServiceTest.java:28-51 | the one-hour window found runs from 12:30 to 13:30 with average 100 |
| `EnergyServiceTest.ShouldReturnNullWhenNotEnoughData` | backend/src/test/java/com.msyg.energymix/service/EnergyServiceTest.java:53-63 | an empty forecast gives no window |
| `EnergyServiceTest.MockGrouping` | backend/src/test/java/com.msyg.energymix/service/EnergyServiceTest.java:66-79 | the test's three slots form one day whose items are coal 100, wind 100, wind 100 |
| `EnergyServiceTest.MockRawSources` | backend/src/main/java/com.msyg.energymix/service/EnergyService.java:98-111 | on those items coal averages 100 over one item and wind 100 over two |
| `EnergyServiceTest.MockNormalized` | backend/src/main/java/com.msyg.energymix/service/EnergyService.java:151-174 | entries coal 100 and wind 100 (total 200) are rescaled to 50 each |
| `EnergyServiceTest.MockForecast` | backend/src/main/java/com.msyg.energymix/service/EnergyService.java:26-42 | the test's data aggregates to one report for 2025-01-01: coal 50, wind 50, clean 50 |

## Left out

- The API client (`CarbonIntensityClient`): HTTP, the clock read that fixes the forecast's start, URL formatting and the swallowing of exceptions. The fetched list is a parameter; an empty list is a failed fetch.
- Parsing ISO 8601 timestamps and taking the date in the slot's own time zone: the date key and the timestamps are given fields.
- IEEE double arithmetic: percentages are reals, so rounding and NaN are not modelled.
- FindOptimalWindow: requires hours ≥ 1, which the only caller guarantees (it passes 1 to 6), and computes with the unbounded `2 * hours`. The source computes `requiredSlots = durationInHours * 2` in 32-bit arithmetic (EnergyService.java:53), and none of the following paths is modelled. For hours = 0 and hours = −2^31 the product is 0, the average is NaN and there is no report. For hours in [−2^30, −1] or [2^30, 2^31 − 1] the product is negative, and the source returns null or throws IndexOutOfBoundsException, depending on whether `size − requiredSlots` in the loop bound at :63 also overflows. For hours in [−2^31 + 1, −2^30 − 1] the product wraps to 2·(hours + 2^31), which is positive, and the source behaves as for that slot count: hours = −2^31 + 1 acts as 1 hour and returns a real report.
- IsRenewable: `toLowerCase` is modelled for ASCII letters only, and the model assumes a JVM default locale that is not Turkish or Azerbaijani. Under those locales Java lower-cases "I" to the dotless "ı", so "WIND" or "BIOMASS" would be non-renewable in the source, and "İ" (U+0130) to "i", so "WİND" would be renewable; the model classifies both the other way. Under any other locale no non-ASCII character lower-cases to a letter of the four names (the Kelvin sign becomes "k", which none of them holds), so there the classification agrees.
- CalculateDailyAverage: the order of a day's entries is not specified, because the source takes it from a `HashMap`. The model lists them in order of first mention; `DailyTotalIndependentOfOrder` shows that the total and the normalisation branch are the same for every order.
- The `/mix` endpoint (`getMix`): it only passes the service's result through.
- CORS configuration, Spring/Lombok/Jackson annotations, the front end, and the HTTP status behaviour the controller test exercises.
