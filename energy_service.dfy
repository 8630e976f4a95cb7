/**
 * The forecast service: daily aggregation of half-hour generation slots,
 * the sliding-window search for the cleanest window, and the shared
 * helpers (renewable classification, normalisation to 100 percent).
 *
 * The list the API client fetches is passed in as a parameter; an empty
 * list is what the client yields when the fetch fails.
 */
module EnergyService {
  import opened Wrappers
  import opened EnergyModel

  // ---------------------------------------------------------------------
  // Renewable classification
  // ---------------------------------------------------------------------

  /** The closed set of renewable fuel names, in lower case. */
  const RenewableFuels: set<string> := {"wind", "solar", "hydro", "biomass"}

  /** Lower-cases an ASCII letter and leaves every other character alone. */
  function ToLowerChar(c: char): char {
    if 'A' <= c <= 'Z' then (c as int + 32) as char else c
  }

  /** `String.toLowerCase`, restricted to ASCII letters. */
  function ToLower(s: string): string {
    seq(|s|, i requires 0 <= i < |s| => ToLowerChar(s[i]))
  }

  /** Whether a fuel counts as renewable: a case-insensitive lookup in the closed set. */
  predicate IsRenewable(fuel: string) {
    ToLower(fuel) in RenewableFuels
  }

  /** Two characters are the same letter up to ASCII case. */
  predicate SameLetterIgnoringCase(c: char, d: char) {
    || c == d
    || ('A' <= c <= 'Z' && d as int == c as int + 32)
    || ('A' <= d <= 'Z' && c as int == d as int + 32)
  }

  /** Two strings agree character by character up to ASCII case. */
  predicate EqualIgnoringCase(a: string, b: string) {
    |a| == |b| && forall i :: 0 <= i < |a| ==> SameLetterIgnoringCase(a[i], b[i])
  }

  /** Lower-casing `s` yields the lower-case word `w` exactly when `s` spells `w` in any case. */
  lemma LowerMatchesWord(s: string, w: string)
    requires forall i :: 0 <= i < |w| ==> 'a' <= w[i] <= 'z'
    ensures ToLower(s) == w <==> EqualIgnoringCase(s, w)
  {
    if EqualIgnoringCase(s, w) {
      assert forall i :: 0 <= i < |s| ==> ToLower(s)[i] == w[i];
    }
    if ToLower(s) == w {
      forall i | 0 <= i < |s|
        ensures SameLetterIgnoringCase(s[i], w[i])
      {
        assert ToLowerChar(s[i]) == w[i];
      }
    }
  }

  /** A fuel is renewable exactly when it spells one of the four renewable names, in any case. */
  lemma IsRenewableExactly(fuel: string)
    ensures IsRenewable(fuel) <==>
      || EqualIgnoringCase(fuel, "wind")
      || EqualIgnoringCase(fuel, "solar")
      || EqualIgnoringCase(fuel, "hydro")
      || EqualIgnoringCase(fuel, "biomass")
  {
    LowerMatchesWord(fuel, "wind");
    LowerMatchesWord(fuel, "solar");
    LowerMatchesWord(fuel, "hydro");
    LowerMatchesWord(fuel, "biomass");
  }

  /** The classification does not depend on the case of the name. */
  lemma IsRenewableIgnoresCase(a: string, b: string)
    requires EqualIgnoringCase(a, b)
    ensures IsRenewable(a) == IsRenewable(b)
  {
    forall i | 0 <= i < |a|
      ensures ToLower(a)[i] == ToLower(b)[i]
    {
      assert SameLetterIgnoringCase(a[i], b[i]);
    }
    assert ToLower(a) == ToLower(b);
  }

  // ---------------------------------------------------------------------
  // Clean percentage of one slot
  // ---------------------------------------------------------------------

  /** Total reported generation of a slot's items. */
  function MixTotal(mix: seq<GenerationItem>): real {
    if mix == [] then 0.0 else MixTotal(mix[..|mix| - 1]) + mix[|mix| - 1].perc
  }

  /** Generation of a slot's items whose fuel is renewable. */
  function MixRenewable(mix: seq<GenerationItem>): real {
    if mix == [] then 0.0
    else
      var last := mix[|mix| - 1];
      MixRenewable(mix[..|mix| - 1]) + (if IsRenewable(last.fuel) then last.perc else 0.0)
  }

  /**
   * The renewable share of a slot, in percent of its total generation;
   * 0 when the slot reports no positive total.
   */
  function SlotCleanPercent(slot: GenerationData): real {
    var total := MixTotal(slot.generationMix);
    if total > 0.0 then MixRenewable(slot.generationMix) / total * 100.0 else 0.0
  }

  predicate NonNegativeMix(mix: seq<GenerationItem>) {
    forall i :: 0 <= i < |mix| ==> mix[i].perc >= 0.0
  }

  predicate NonNegativeSlots(slots: seq<GenerationData>) {
    forall k :: 0 <= k < |slots| ==> NonNegativeMix(slots[k].generationMix)
  }

  /** With no negative item, renewable generation lies between 0 and the total. */
  lemma {:induction false} RenewableWithinTotal(mix: seq<GenerationItem>)
    requires NonNegativeMix(mix)
    ensures 0.0 <= MixRenewable(mix) <= MixTotal(mix)
  {
    if mix != [] {
      RenewableWithinTotal(mix[..|mix| - 1]);
    }
  }

  /** With no negative item, a slot's clean percentage lies in [0, 100]. */
  lemma SlotCleanPercentBounds(slot: GenerationData)
    requires NonNegativeMix(slot.generationMix)
    ensures 0.0 <= SlotCleanPercent(slot) <= 100.0
  {
    var total := MixTotal(slot.generationMix);
    var renewable := MixRenewable(slot.generationMix);
    RenewableWithinTotal(slot.generationMix);
    if total > 0.0 {
      PercentOfWhole(renewable, total);
    }
  }

  /** A part between 0 and a positive whole is between 0 and 100 percent of it. */
  lemma PercentOfWhole(part: real, whole: real)
    requires 0.0 <= part <= whole && whole > 0.0
    ensures 0.0 <= part / whole * 100.0 <= 100.0
  {
    var q := part / whole;
    assert q * whole == part;
    assert (1.0 - q) * whole == whole - part;
  }

  /** `calculateCleanPercentForSlot`: one pass accumulating the total and the renewable part. */
  method CalculateCleanPercentForSlot(slot: GenerationData) returns (p: real)
    ensures p == SlotCleanPercent(slot)
  {
    var mix := slot.generationMix;
    var total := 0.0;
    var renewable := 0.0;
    for i := 0 to |mix|
      invariant total == MixTotal(mix[..i])
      invariant renewable == MixRenewable(mix[..i])
    {
      var item := mix[i];
      assert mix[..i + 1][..i] == mix[..i];
      total := total + item.perc;
      if IsRenewable(item.fuel) {
        renewable := renewable + item.perc;
      }
    }
    assert mix[..|mix|] == mix;
    p := if total > 0.0 then (renewable / total) * 100.0 else 0.0;
  }

  // ---------------------------------------------------------------------
  // Sliding-window optimiser
  // ---------------------------------------------------------------------

  /** Sum of the clean percentages of the slots with index in [lo, hi). */
  function CleanSum(slots: seq<GenerationData>, lo: int, hi: int): real
    requires 0 <= lo <= hi <= |slots|
    decreases hi - lo
  {
    if lo == hi then 0.0 else CleanSum(slots, lo, hi - 1) + SlotCleanPercent(slots[hi - 1])
  }

  /** Mean clean percentage of the `k` slots starting at index `i`. */
  function WindowAverage(slots: seq<GenerationData>, i: int, k: int): real
    requires 0 <= i && 1 <= k && i + k <= |slots|
  {
    CleanSum(slots, i, i + k) / k as real
  }

  /**
   * Window `b` of `k` slots has an average no lower than any other window's,
   * and strictly higher than every window that starts earlier.
   */
  ghost predicate IsBestWindow(slots: seq<GenerationData>, k: int, b: int)
    requires 1 <= k
  {
    && 0 <= b <= |slots| - k
    && (forall j :: 0 <= j <= |slots| - k ==> WindowAverage(slots, j, k) <= WindowAverage(slots, b, k))
    && (forall j :: 0 <= j < b ==> WindowAverage(slots, j, k) < WindowAverage(slots, b, k))
  }

  /**
   * The optimiser gives no report for windows of `k` slots exactly when there
   * are fewer than `k` slots or no window averages above the initial running
   * maximum of -1.
   */
  ghost predicate AbsentExactlyWhenNoWindow(slots: seq<GenerationData>, k: int, r: Option<OptimalWindowReport>)
    requires 1 <= k
  {
    r.None? <==>
      || |slots| == 0
      || |slots| < k
      || forall j :: 0 <= j <= |slots| - k ==> WindowAverage(slots, j, k) <= -1.0
  }

  /**
   * A report is that of the best window (the first of the maxima), from the
   * start of its first slot to the end of its last one, with its average.
   */
  ghost predicate ReportsBestWindow(slots: seq<GenerationData>, k: int, r: Option<OptimalWindowReport>)
    requires 1 <= k
  {
    r.Some? ==>
      exists b :: IsBestWindow(slots, k, b) &&
        r.value == OptimalWindowReport(slots[b].from, slots[b + k - 1].to, WindowAverage(slots, b, k))
  }

  /** The best window is unique: the tie-break leaves no choice. */
  lemma BestWindowUnique(slots: seq<GenerationData>, k: int, b1: int, b2: int)
    requires 1 <= k
    requires IsBestWindow(slots, k, b1) && IsBestWindow(slots, k, b2)
    ensures b1 == b2
  {
    assert WindowAverage(slots, b1, k) <= WindowAverage(slots, b2, k);
    assert WindowAverage(slots, b2, k) <= WindowAverage(slots, b1, k);
  }

  /** With no negative percentage, every window average lies in [0, 100]. */
  lemma WindowAverageBounds(slots: seq<GenerationData>, i: int, k: int)
    requires 0 <= i && 1 <= k && i + k <= |slots|
    requires NonNegativeSlots(slots)
    ensures 0.0 <= WindowAverage(slots, i, k) <= 100.0
  {
    CleanSumBounds(slots, i, i + k);
  }

  lemma {:induction false} CleanSumBounds(slots: seq<GenerationData>, lo: int, hi: int)
    requires 0 <= lo <= hi <= |slots|
    requires NonNegativeSlots(slots)
    ensures 0.0 <= CleanSum(slots, lo, hi) <= 100.0 * (hi - lo) as real
    decreases hi - lo
  {
    if lo < hi {
      CleanSumBounds(slots, lo, hi - 1);
      SlotCleanPercentBounds(slots[hi - 1]);
    }
  }

  /**
   * With no negative percentage and enough slots there is always a report,
   * since every window averages at least 0, above the initial -1.
   */
  lemma OptimalWindowPresentWhenNonNegative(slots: seq<GenerationData>, k: int, r: Option<OptimalWindowReport>)
    requires 1 <= k <= |slots|
    requires NonNegativeSlots(slots)
    requires AbsentExactlyWhenNoWindow(slots, k, r)
    ensures r.Some?
  {
    WindowAverageBounds(slots, 0, k);
    assert WindowAverage(slots, 0, k) > -1.0;
  }

  /** With no negative percentage, a reported average lies in [0, 100]. */
  lemma ReportedAverageBounds(slots: seq<GenerationData>, k: int, r: Option<OptimalWindowReport>)
    requires 1 <= k
    requires NonNegativeSlots(slots)
    requires ReportsBestWindow(slots, k, r)
    ensures r.Some? ==> 0.0 <= r.value.avgCleanEnergyPercent <= 100.0
  {
    if r.Some? {
      var b :| IsBestWindow(slots, k, b) && r.value.avgCleanEnergyPercent == WindowAverage(slots, b, k);
      BestWindowAverageBounds(slots, k, b);
    }
  }

  /** The best window is a window, so its average lies in [0, 100]. */
  lemma BestWindowAverageBounds(slots: seq<GenerationData>, k: int, b: int)
    requires 1 <= k
    requires NonNegativeSlots(slots)
    requires IsBestWindow(slots, k, b)
    ensures 0.0 <= WindowAverage(slots, b, k) <= 100.0
  {
    WindowAverageBounds(slots, b, k);
  }

  /**
   * `findOptimalWindow`: for every window start, sums the clean percentage
   * of the window's slots and keeps the first window whose average beats
   * the running maximum.
   */
  method FindOptimalWindow(timeSeries: seq<GenerationData>, durationInHours: int)
    returns (r: Option<OptimalWindowReport>)
    requires durationInHours >= 1
    ensures ReportsBestWindow(timeSeries, 2 * durationInHours, r)
    ensures AbsentExactlyWhenNoWindow(timeSeries, 2 * durationInHours, r)
  {
    if |timeSeries| == 0 {
      return None;
    }
    var requiredSlots := durationInHours * 2;
    if |timeSeries| < requiredSlots {
      return None;
    }

    var maxAverage := -1.0;
    var bestStartSlot: Option<GenerationData> := None;
    var bestEndSlot: Option<GenerationData> := None;
    ghost var best := 0;

    var i := 0;
    while i <= |timeSeries| - requiredSlots
      invariant 0 <= i <= |timeSeries| - requiredSlots + 1
      invariant bestStartSlot.None? <==> bestEndSlot.None?
      invariant bestStartSlot.None? ==>
        maxAverage == -1.0 &&
        forall j :: 0 <= j < i ==> WindowAverage(timeSeries, j, requiredSlots) <= -1.0
      invariant bestStartSlot.Some? ==>
        && 0 <= best < i
        && bestStartSlot.value == timeSeries[best]
        && bestEndSlot.value == timeSeries[best + requiredSlots - 1]
        && maxAverage == WindowAverage(timeSeries, best, requiredSlots)
        && maxAverage > -1.0
        && (forall j :: 0 <= j < i ==> WindowAverage(timeSeries, j, requiredSlots) <= maxAverage)
        && (forall j :: 0 <= j < best ==> WindowAverage(timeSeries, j, requiredSlots) < maxAverage)
    {
      var sumPercentInWindow := 0.0;
      var j := 0;
      while j < requiredSlots
        invariant 0 <= j <= requiredSlots
        invariant sumPercentInWindow == CleanSum(timeSeries, i, i + j)
      {
        var slot := timeSeries[i + j];
        var p := CalculateCleanPercentForSlot(slot);
        sumPercentInWindow := sumPercentInWindow + p;
        j := j + 1;
      }

      var currentAverage := sumPercentInWindow / requiredSlots as real;
      assert currentAverage == WindowAverage(timeSeries, i, requiredSlots);
      if currentAverage > maxAverage {
        maxAverage := currentAverage;
        bestStartSlot := Some(timeSeries[i]);
        bestEndSlot := Some(timeSeries[i + requiredSlots - 1]);
        best := i;
      }
      i := i + 1;
    }
    assert i == |timeSeries| - requiredSlots + 1;

    if bestStartSlot.Some? && bestEndSlot.Some? {
      assert IsBestWindow(timeSeries, requiredSlots, best);
      return Some(OptimalWindowReport(bestStartSlot.value.from, bestEndSlot.value.to, maxAverage));
    }
    return None;
  }

  // ---------------------------------------------------------------------
  // Normalisation to 100 percent
  // ---------------------------------------------------------------------

  function Abs(x: real): real {
    if x < 0.0 then -x else x
  }

  /** Sum of the percentages of a list of entries. */
  function SourcesTotal(sources: seq<EnergySource>): real {
    if sources == [] then 0.0 else SourcesTotal(sources[..|sources| - 1]) + sources[|sources| - 1].percentage
  }

  /** Every entry rescaled by `100 / totalSum`, name and flag kept. */
  function Rescale(sources: seq<EnergySource>, totalSum: real): seq<EnergySource>
    requires totalSum != 0.0
  {
    seq(|sources|, i requires 0 <= i < |sources| =>
      EnergySource(sources[i].name, (sources[i].percentage / totalSum) * 100.0, sources[i].renewable))
  }

  /** Rescaling divides the total by `totalSum` and multiplies it by 100. */
  lemma {:induction false} RescaleTotal(sources: seq<EnergySource>, totalSum: real)
    requires totalSum != 0.0
    ensures SourcesTotal(Rescale(sources, totalSum)) == SourcesTotal(sources) / totalSum * 100.0
  {
    if sources != [] {
      var n := |sources|;
      assert Rescale(sources, totalSum)[..n - 1] == Rescale(sources[..n - 1], totalSum);
      RescaleTotal(sources[..n - 1], totalSum);
    }
  }

  lemma HundredPercentOfItself(t: real)
    requires t != 0.0
    ensures t / t * 100.0 == 100.0
  {
  }

  /**
   * `normalizeTo100Percent`: entries are returned as they are when the list
   * is empty, when their total is within 0.5 of 100, or when it is 0;
   * otherwise every entry is rescaled so that the total is exactly 100.
   */
  function NormalizeTo100Percent(sources: seq<EnergySource>): (r: seq<EnergySource>)
    ensures |r| == |sources|
    ensures forall i :: 0 <= i < |r| ==>
      r[i].name == sources[i].name && r[i].renewable == sources[i].renewable
    ensures var total := SourcesTotal(sources);
      if sources == [] || Abs(total - 100.0) < 0.5 || total == 0.0 then r == sources
      else
        && SourcesTotal(r) == 100.0
        && forall i :: 0 <= i < |r| ==> r[i].percentage == sources[i].percentage / total * 100.0
  {
    if sources == [] then sources
    else
      var totalSum := SourcesTotal(sources);
      if Abs(totalSum - 100.0) < 0.5 then sources
      else if totalSum == 0.0 then sources
      else
        RescaleTotal(sources, totalSum);
        HundredPercentOfItself(totalSum);
        Rescale(sources, totalSum)
  }

  // ---------------------------------------------------------------------
  // Per-fuel averages of one day
  // ---------------------------------------------------------------------

  /** The items of all slots of a day, slot by slot (the `flatMap`). */
  function Flatten(dayData: seq<GenerationData>): seq<GenerationItem> {
    if dayData == [] then [] else Flatten(dayData[..|dayData| - 1]) + dayData[|dayData| - 1].generationMix
  }

  /** The fuel names mentioned by a list of items. */
  function Fuels(items: seq<GenerationItem>): set<string> {
    set it | it in items :: it.fuel
  }

  /** The names of a list of entries. */
  function Names(sources: seq<EnergySource>): set<string> {
    set s | s in sources :: s.name
  }

  /** The percentages of the items naming `fuel`, in order. */
  function PercsOf(items: seq<GenerationItem>, fuel: string): seq<real> {
    if items == [] then []
    else
      var last := items[|items| - 1];
      PercsOf(items[..|items| - 1], fuel) + (if last.fuel == fuel then [last.perc] else [])
  }

  function Sum(xs: seq<real>): real {
    if xs == [] then 0.0 else Sum(xs[..|xs| - 1]) + xs[|xs| - 1]
  }

  /** The arithmetic mean of a non-empty list of values. */
  function Mean(xs: seq<real>): real
    requires xs != []
  {
    Sum(xs) / |xs| as real
  }

  /** A fuel has values to average exactly when some item names it. */
  lemma {:induction false} PercsOfNonEmpty(items: seq<GenerationItem>, fuel: string)
    ensures PercsOf(items, fuel) != [] <==> fuel in Fuels(items)
  {
    if items != [] {
      var n := |items|;
      PercsOfNonEmpty(items[..n - 1], fuel);
      assert items == items[..n - 1] + [items[n - 1]];
      assert Fuels(items) == Fuels(items[..n - 1]) + {items[n - 1].fuel};
    }
  }

  /**
   * The running (sum, count) per fuel that `Collectors.averagingDouble`
   * keeps while grouping the items by fuel.
   */
  function FuelTotals(items: seq<GenerationItem>): (m: map<string, (real, nat)>)
    ensures forall f :: f in m ==> m[f].1 > 0
  {
    if items == [] then map[]
    else
      var m := FuelTotals(items[..|items| - 1]);
      var item := items[|items| - 1];
      var acc := if item.fuel in m then m[item.fuel] else (0.0, 0);
      m[item.fuel := (acc.0 + item.perc, acc.1 + 1)]
  }

  /** The per-fuel accumulator holds the sum and the number of the items naming each fuel. */
  lemma {:induction false} FuelTotalsCount(items: seq<GenerationItem>, fuel: string)
    ensures fuel in FuelTotals(items) <==> PercsOf(items, fuel) != []
    ensures fuel in FuelTotals(items) ==>
      FuelTotals(items)[fuel] == (Sum(PercsOf(items, fuel)), |PercsOf(items, fuel)|)
  {
    if items != [] {
      var n := |items|;
      var prefix, item := items[..n - 1], items[n - 1];
      FuelTotalsCount(prefix, fuel);
      var m := FuelTotals(prefix);
      var xs := PercsOf(prefix, fuel);
      var acc := if item.fuel in m then m[item.fuel] else (0.0, 0);
      assert FuelTotals(items) == m[item.fuel := (acc.0 + item.perc, acc.1 + 1)];
      if item.fuel == fuel {
        assert PercsOf(items, fuel) == xs + [item.perc];
        SumAppend(xs, item.perc);
      } else {
        assert PercsOf(items, fuel) == xs;
      }
    }
  }

  lemma SumAppend(xs: seq<real>, x: real)
    ensures Sum(xs + [x]) == Sum(xs) + x
  {
    assert (xs + [x])[..|xs|] == xs;
  }

  /** `groupingBy(fuel, averagingDouble(perc))`: the mean percentage per fuel. */
  function AverageByFuel(items: seq<GenerationItem>): map<string, real> {
    var t := FuelTotals(items);
    map f | f in t :: t[f].0 / t[f].1 as real
  }

  /**
   * Every fuel named in the day gets an average, and that average is the
   * mean of the percentages of the items naming it: the divisor is the
   * number of those items, not the number of slots.
   */
  lemma AverageIsMeanOfNamingItems(items: seq<GenerationItem>, fuel: string)
    ensures fuel in AverageByFuel(items) <==> fuel in Fuels(items)
    ensures fuel in AverageByFuel(items) ==>
      PercsOf(items, fuel) != [] && AverageByFuel(items)[fuel] == Mean(PercsOf(items, fuel))
  {
    FuelTotalsCount(items, fuel);
    PercsOfNonEmpty(items, fuel);
  }

  /** The distinct fuels of a list of items, in order of first mention. */
  function DistinctFuels(items: seq<GenerationItem>): (r: seq<string>)
    ensures forall i, j :: 0 <= i < j < |r| ==> r[i] != r[j]
    ensures forall f :: f in r <==> f in FuelTotals(items)
  {
    if items == [] then []
    else
      var r := DistinctFuels(items[..|items| - 1]);
      var fuel := items[|items| - 1].fuel;
      if fuel in r then r else r + [fuel]
  }

  /**
   * One entry per fuel named in the day, holding its average and its
   * classification. The order is that of first mention; the source takes
   * the order of a hash map, which it leaves unspecified.
   */
  function RawSources(items: seq<GenerationItem>): (r: seq<EnergySource>)
    ensures forall i, j :: 0 <= i < j < |r| ==> r[i].name != r[j].name
    ensures Names(r) == Fuels(items)
    ensures forall i :: 0 <= i < |r| ==>
      && PercsOf(items, r[i].name) != []
      && r[i].percentage == Mean(PercsOf(items, r[i].name))
      && r[i].renewable == IsRenewable(r[i].name)
  {
    var fuels := DistinctFuels(items);
    var avg := AverageByFuel(items);
    var r := seq(|fuels|, i requires 0 <= i < |fuels| =>
      EnergySource(fuels[i], avg[fuels[i]], IsRenewable(fuels[i])));
    RawSourcesFacts(items, fuels, avg, r);
    r
  }

  lemma RawSourcesFacts(items: seq<GenerationItem>, fuels: seq<string>, avg: map<string, real>, r: seq<EnergySource>)
    requires fuels == DistinctFuels(items) && avg == AverageByFuel(items)
    requires |r| == |fuels|
    requires forall i :: 0 <= i < |r| ==> fuels[i] in avg && r[i] == EnergySource(fuels[i], avg[fuels[i]], IsRenewable(fuels[i]))
    ensures Names(r) == Fuels(items)
    ensures forall i :: 0 <= i < |r| ==>
      PercsOf(items, r[i].name) != [] && r[i].percentage == Mean(PercsOf(items, r[i].name))
  {
    forall i | 0 <= i < |r|
      ensures PercsOf(items, r[i].name) != [] && r[i].percentage == Mean(PercsOf(items, r[i].name))
    {
      AverageIsMeanOfNamingItems(items, fuels[i]);
    }
    forall f | f in Fuels(items)
      ensures f in Names(r)
    {
      AverageIsMeanOfNamingItems(items, f);
      var i :| 0 <= i < |fuels| && fuels[i] == f;
      assert r[i].name == f;
    }
    forall f | f in Names(r)
      ensures f in Fuels(items)
    {
      var s :| s in r && s.name == f;
      var i :| 0 <= i < |r| && r[i] == s;
      AverageIsMeanOfNamingItems(items, fuels[i]);
    }
  }

  // ---------------------------------------------------------------------
  // Daily report
  // ---------------------------------------------------------------------

  /** Sum of the percentages of the entries flagged renewable. */
  function RenewableShare(sources: seq<EnergySource>): real {
    if sources == [] then 0.0
    else
      var last := sources[|sources| - 1];
      RenewableShare(sources[..|sources| - 1]) + (if last.renewable then last.percentage else 0.0)
  }

  /** Whether normalisation leaves a list of entries as it is. */
  predicate LeftUnscaled(sources: seq<EnergySource>) {
    var total := SourcesTotal(sources);
    sources == [] || Abs(total - 100.0) < 0.5 || total == 0.0
  }

  /** Two lists that agree on every name, position by position, have the same names. */
  lemma NamesAgree(a: seq<EnergySource>, b: seq<EnergySource>)
    requires |a| == |b|
    requires forall i :: 0 <= i < |a| ==> a[i].name == b[i].name
    ensures Names(a) == Names(b)
  {
    forall f | f in Names(a)
      ensures f in Names(b)
    {
      var s :| s in a && s.name == f;
      var i :| 0 <= i < |a| && a[i] == s;
      assert b[i] in b;
    }
    forall f | f in Names(b)
      ensures f in Names(a)
    {
      var s :| s in b && s.name == f;
      var i :| 0 <= i < |b| && b[i] == s;
      assert a[i] in a;
    }
  }

  /**
   * `calculateDailyAverage`: one entry per fuel named in the day, holding
   * the mean of that fuel's percentages, classified, then normalised; the
   * clean-energy percentage is the sum of the normalised renewable entries.
   */
  function CalculateDailyAverage(date: DateKey, dayData: seq<GenerationData>): (r: EnergyReport)
    ensures r.date == date
    ensures forall i, j :: 0 <= i < j < |r.sources| ==> r.sources[i].name != r.sources[j].name
    ensures Names(r.sources) == Fuels(Flatten(dayData))
    ensures forall i :: 0 <= i < |r.sources| ==>
      && r.sources[i].renewable == IsRenewable(r.sources[i].name)
      && PercsOf(Flatten(dayData), r.sources[i].name) != []
    ensures var raw := RawSources(Flatten(dayData));
      if LeftUnscaled(raw) then
        forall i :: 0 <= i < |r.sources| ==>
          r.sources[i].percentage == Mean(PercsOf(Flatten(dayData), r.sources[i].name))
      else
        && SourcesTotal(r.sources) == 100.0
        && forall i :: 0 <= i < |r.sources| ==>
          r.sources[i].percentage == Mean(PercsOf(Flatten(dayData), r.sources[i].name)) / SourcesTotal(raw) * 100.0
    ensures r.cleanEnergyPercent == RenewableShare(r.sources)
    ensures r.sources == [] ==> r.cleanEnergyPercent == 0.0
  {
    var sources := RawSources(Flatten(dayData));
    var normalizedSources := NormalizeTo100Percent(sources);
    NamesAgree(sources, normalizedSources);
    var cleanPercent := RenewableShare(normalizedSources);
    EnergyReport(date, normalizedSources, cleanPercent)
  }

  predicate NonNegativeSources(sources: seq<EnergySource>) {
    forall i :: 0 <= i < |sources| ==> sources[i].percentage >= 0.0
  }

  lemma {:induction false} FlattenNonNegative(dayData: seq<GenerationData>)
    requires NonNegativeSlots(dayData)
    ensures NonNegativeMix(Flatten(dayData))
  {
    if dayData != [] {
      FlattenNonNegative(dayData[..|dayData| - 1]);
    }
  }

  lemma {:induction false} PercsOfSumNonNegative(items: seq<GenerationItem>, fuel: string)
    requires NonNegativeMix(items)
    ensures Sum(PercsOf(items, fuel)) >= 0.0
  {
    if items != [] {
      var n := |items|;
      var xs := PercsOf(items[..n - 1], fuel);
      PercsOfSumNonNegative(items[..n - 1], fuel);
      if items[n - 1].fuel == fuel {
        SumAppend(xs, items[n - 1].perc);
      } else {
        assert PercsOf(items, fuel) == xs;
      }
    }
  }

  /** With no negative entry, the renewable share lies between 0 and the total. */
  lemma {:induction false} ShareWithinTotal(sources: seq<EnergySource>)
    requires NonNegativeSources(sources)
    ensures 0.0 <= RenewableShare(sources) <= SourcesTotal(sources)
  {
    if sources != [] {
      ShareWithinTotal(sources[..|sources| - 1]);
    }
  }

  lemma {:induction false} SourcesTotalNonNegative(sources: seq<EnergySource>)
    requires NonNegativeSources(sources)
    ensures SourcesTotal(sources) >= 0.0
  {
    if sources != [] {
      SourcesTotalNonNegative(sources[..|sources| - 1]);
    }
  }

  lemma RawSourcesNonNegative(items: seq<GenerationItem>)
    requires NonNegativeMix(items)
    ensures NonNegativeSources(RawSources(items))
  {
    var raw := RawSources(items);
    forall i | 0 <= i < |raw|
      ensures raw[i].percentage >= 0.0
    {
      var xs := PercsOf(items, raw[i].name);
      PercsOfSumNonNegative(items, raw[i].name);
      assert Mean(xs) == Sum(xs) / |xs| as real;
    }
  }

  lemma NormalizedNonNegative(sources: seq<EnergySource>)
    requires NonNegativeSources(sources)
    ensures NonNegativeSources(NormalizeTo100Percent(sources))
  {
    var r := NormalizeTo100Percent(sources);
    SourcesTotalNonNegative(sources);
    if !LeftUnscaled(sources) {
      var total := SourcesTotal(sources);
      forall i | 0 <= i < |r|
        ensures r[i].percentage >= 0.0
      {
        assert r[i].percentage == sources[i].percentage / total * 100.0;
      }
    }
  }

  /**
   * With no negative percentage in the day, its clean-energy percentage is
   * at least 0 and below 100.5: at most 100 when the entries were rescaled,
   * and at most their total, inside the tolerance band or 0, when they were not.
   */
  lemma DailyCleanPercentBounds(date: DateKey, dayData: seq<GenerationData>)
    requires NonNegativeSlots(dayData)
    ensures var r := CalculateDailyAverage(date, dayData);
      0.0 <= r.cleanEnergyPercent < 100.5 &&
      (!LeftUnscaled(RawSources(Flatten(dayData))) ==> r.cleanEnergyPercent <= 100.0)
  {
    var raw := RawSources(Flatten(dayData));
    var normalized := NormalizeTo100Percent(raw);
    FlattenNonNegative(dayData);
    RawSourcesNonNegative(Flatten(dayData));
    NormalizedNonNegative(raw);
    ShareWithinTotal(normalized);
    assert CalculateDailyAverage(date, dayData).cleanEnergyPercent == RenewableShare(normalized);
  }

  // ---------------------------------------------------------------------
  // Independence from the order of a day's entries
  // ---------------------------------------------------------------------

  predicate DistinctNames(sources: seq<EnergySource>) {
    forall i, j :: 0 <= i < j < |sources| ==> sources[i].name != sources[j].name
  }

  /** Taking one entry out of a list takes its percentage out of the total. */
  lemma {:induction false} SourcesTotalRemove(s: seq<EnergySource>, j: int)
    requires 0 <= j < |s|
    ensures SourcesTotal(s) == SourcesTotal(s[..j] + s[j + 1..]) + s[j].percentage
  {
    var n := |s|;
    if j == n - 1 {
      assert s[..j] + s[j + 1..] == s[..n - 1];
    } else {
      var t := s[..n - 1];
      SourcesTotalRemove(t, j);
      var u := t[..j] + t[j + 1..];
      assert s[..j] + s[j + 1..] == u + [s[n - 1]];
      assert (u + [s[n - 1]])[..|u|] == u;
    }
  }

  /** The total of a list does not depend on the order of its entries. */
  lemma {:induction false} SourcesTotalPermutation(a: seq<EnergySource>, b: seq<EnergySource>)
    requires multiset(a) == multiset(b)
    ensures SourcesTotal(a) == SourcesTotal(b)
  {
    if a != [] {
      var n := |a|;
      var x := a[n - 1];
      assert a == a[..n - 1] + [x];
      assert x in multiset(b);
      var j :| 0 <= j < |b| && b[j] == x;
      assert b == b[..j] + [x] + b[j + 1..];
      var b' := b[..j] + b[j + 1..];
      assert multiset(b) == multiset(b[..j]) + multiset{x} + multiset(b[j + 1..]);
      assert multiset(b') == multiset(b[..j]) + multiset(b[j + 1..]);
      assert multiset(a) == multiset(a[..n - 1]) + multiset{x};
      assert multiset(a[..n - 1]) == multiset(a) - multiset{x};
      assert multiset(b') == multiset(b) - multiset{x};
      SourcesTotalPermutation(a[..n - 1], b');
      SourcesTotalRemove(b, j);
    }
  }

  /** A list with distinct names holds each of its entries once. */
  lemma {:induction false} DistinctNamesCount(a: seq<EnergySource>)
    requires DistinctNames(a)
    ensures forall x :: multiset(a)[x] == if x in a then 1 else 0
  {
    if a != [] {
      var n := |a|;
      var t := a[..n - 1];
      DistinctNamesCount(t);
      assert a == t + [a[n - 1]];
      assert a[n - 1] !in t;
    }
  }

  /** Two lists with distinct names and the same entries are permutations of each other. */
  lemma SameEntriesPermutation(a: seq<EnergySource>, b: seq<EnergySource>)
    requires DistinctNames(a) && DistinctNames(b)
    requires forall x :: x in a <==> x in b
    ensures multiset(a) == multiset(b)
  {
    DistinctNamesCount(a);
    DistinctNamesCount(b);
  }

  /** An entry built from a fuel's name, mean and classification. */
  predicate IsFuelEntry(items: seq<GenerationItem>, e: EnergySource) {
    && PercsOf(items, e.name) != []
    && e.percentage == Mean(PercsOf(items, e.name))
    && e.renewable == IsRenewable(e.name)
  }

  /** Two entries for the same fuel built from the same items are equal. */
  lemma FuelEntriesAgree(items: seq<GenerationItem>, x: EnergySource, y: EnergySource)
    requires IsFuelEntry(items, x) && IsFuelEntry(items, y)
    requires x.name == y.name
    ensures x == y
  {
  }

  /** Lists of fuel entries with the same names hold the same entries. */
  lemma SameFuelEntries(items: seq<GenerationItem>, a: seq<EnergySource>, b: seq<EnergySource>)
    requires forall i :: 0 <= i < |a| ==> IsFuelEntry(items, a[i])
    requires forall i :: 0 <= i < |b| ==> IsFuelEntry(items, b[i])
    requires Names(a) == Names(b)
    ensures forall x :: x in a ==> x in b
  {
    forall x | x in a
      ensures x in b
    {
      var i :| 0 <= i < |a| && a[i] == x;
      assert x.name in Names(b);
      var j :| 0 <= j < |b| && b[j].name == x.name;
      FuelEntriesAgree(items, x, b[j]);
    }
  }

  /** The model's list of a day's entries is such a list. */
  lemma RawSourcesAreFuelEntries(items: seq<GenerationItem>)
    ensures DistinctNames(RawSources(items))
    ensures Names(RawSources(items)) == Fuels(items)
    ensures forall i :: 0 <= i < |RawSources(items)| ==> IsFuelEntry(items, RawSources(items)[i])
  {
  }

  /**
   * Any list of a day's entries with distinct names, one per fuel named,
   * each holding its fuel's mean and classification, has the same total
   * and takes the same normalisation branch as the model's list, whatever
   * its order (the order a `HashMap` would give, say).
   */
  lemma DailyTotalIndependentOfOrder(items: seq<GenerationItem>, other: seq<EnergySource>)
    requires DistinctNames(other)
    requires Names(other) == Fuels(items)
    requires forall i :: 0 <= i < |other| ==> IsFuelEntry(items, other[i])
    ensures SourcesTotal(other) == SourcesTotal(RawSources(items))
    ensures LeftUnscaled(other) == LeftUnscaled(RawSources(items))
  {
    RawSourcesAreFuelEntries(items);
    FuelEntryListsAgree(items, other, RawSources(items));
  }

  /** Two lists of a day's fuel entries with distinct, equal name sets agree on total and branch. */
  lemma FuelEntryListsAgree(items: seq<GenerationItem>, a: seq<EnergySource>, b: seq<EnergySource>)
    requires DistinctNames(a) && DistinctNames(b)
    requires Names(a) == Names(b)
    requires forall i :: 0 <= i < |a| ==> IsFuelEntry(items, a[i])
    requires forall i :: 0 <= i < |b| ==> IsFuelEntry(items, b[i])
    ensures SourcesTotal(a) == SourcesTotal(b)
    ensures LeftUnscaled(a) == LeftUnscaled(b)
  {
    SameFuelEntries(items, a, b);
    SameFuelEntries(items, b, a);
    SameEntriesPermutation(a, b);
    SourcesTotalPermutation(a, b);
    SameNamesEmpty(a, b);
  }

  /** Lists with the same names are empty together. */
  lemma SameNamesEmpty(a: seq<EnergySource>, b: seq<EnergySource>)
    requires Names(a) == Names(b)
    ensures a == [] <==> b == []
  {
    assert a != [] ==> a[0].name in Names(a);
    assert b != [] ==> b[0].name in Names(b);
  }

  // ---------------------------------------------------------------------
  // Three-day forecast
  // ---------------------------------------------------------------------

  predicate StrictlyIncreasing(s: seq<DateKey>) {
    forall i, j :: 0 <= i < j < |s| ==> s[i] < s[j]
  }

  /** Inserts a date into a strictly increasing list of dates, once. */
  function InsertDate(d: DateKey, sorted: seq<DateKey>): (r: seq<DateKey>)
    requires StrictlyIncreasing(sorted)
    ensures StrictlyIncreasing(r)
    ensures forall x :: x in r <==> x == d || x in sorted
  {
    if sorted == [] then [d]
    else if d < sorted[0] then [d] + sorted
    else if d == sorted[0] then sorted
    else
      var rest := InsertDate(d, sorted[1..]);
      PrependIncreasing(sorted[0], rest);
      [sorted[0]] + rest
  }

  lemma PrependIncreasing(x: DateKey, s: seq<DateKey>)
    requires StrictlyIncreasing(s)
    requires forall y :: y in s ==> x < y
    ensures StrictlyIncreasing([x] + s)
  {
    var r := [x] + s;
    forall i, j | 0 <= i < j < |r|
      ensures r[i] < r[j]
    {
      assert r[j] == s[j - 1] && s[j - 1] in s;
      if i > 0 {
        assert r[i] == s[i - 1];
      }
    }
  }

  /** The distinct dates of a list, in strictly increasing order. */
  function SortedDates(dates: seq<DateKey>): (r: seq<DateKey>)
    ensures StrictlyIncreasing(r)
    ensures forall x :: x in r <==> x in dates
  {
    if dates == [] then []
    else InsertDate(dates[|dates| - 1], SortedDates(dates[..|dates| - 1]))
  }

  /** The start date of every slot, in order. */
  function Dates(slots: seq<GenerationData>): seq<DateKey> {
    seq(|slots|, i requires 0 <= i < |slots| => slots[i].date)
  }

  /** The distinct start dates of a list of slots. */
  function DatesOf(slots: seq<GenerationData>): set<DateKey> {
    DateSet(Dates(slots))
  }

  /**
   * A day's group keeps every slot of that date as often as the input
   * holds it, repeats included, and no slot of another date.
   */
  lemma {:induction false} DayGroupCounts(slots: seq<GenerationData>, d: DateKey)
    ensures forall s ::
      multiset(DayGroup(slots, d))[s] == (if s.date == d then multiset(slots)[s] else 0)
  {
    if slots != [] {
      var n := |slots|;
      var last := slots[n - 1];
      DayGroupCounts(slots[..n - 1], d);
      assert slots == slots[..n - 1] + [last];
      assert multiset(slots) == multiset(slots[..n - 1]) + multiset{last};
    }
  }

  /** The distinct dates of a list of dates. */
  function DateSet(s: seq<DateKey>): set<DateKey> {
    set x | x in s
  }

  /** The dates of a list of reports. */
  function ReportDates(reports: seq<EnergyReport>): set<DateKey> {
    set r | r in reports :: r.date
  }

  /** The slots starting on date `d`, in order (one group of `groupingBy`). */
  function DayGroup(slots: seq<GenerationData>, d: DateKey): (g: seq<GenerationData>)
    ensures forall s :: s in g <==> s in slots && s.date == d
  {
    if slots == [] then []
    else
      var last := slots[|slots| - 1];
      DayGroup(slots[..|slots| - 1], d) + (if last.date == d then [last] else [])
  }


  /** A strictly increasing list holds as many dates as its set of dates. */
  lemma {:induction false} StrictlyIncreasingCard(s: seq<DateKey>)
    requires StrictlyIncreasing(s)
    ensures |DateSet(s)| == |s|
  {
    if s != [] {
      var n := |s|;
      StrictlyIncreasingCard(s[..n - 1]);
      assert DateSet(s) == DateSet(s[..n - 1]) + {s[n - 1]};
      assert s[n - 1] !in DateSet(s[..n - 1]);
    }
  }

  /**
   * `getThreeDayForecast`: groups the slots by start date and reports each
   * day, ordered by date. The source maps the groups to reports and then
   * sorts the reports by date; since each report carries its group's date,
   * this is the same as mapping the sorted dates.
   */
  function GetThreeDayForecast(forecastData: seq<GenerationData>): (r: seq<EnergyReport>)
    ensures r == [] <==> forecastData == []
    ensures forall i, j :: 0 <= i < j < |r| ==> r[i].date < r[j].date
    ensures ReportDates(r) == DatesOf(forecastData)
    ensures |r| == |DatesOf(forecastData)|
    ensures forall i :: 0 <= i < |r| ==>
      r[i] == CalculateDailyAverage(r[i].date, DayGroup(forecastData, r[i].date))
  {
    if forecastData == [] then []
    else
      var keys := SortedDates(Dates(forecastData));
      var r := seq(|keys|, i requires 0 <= i < |keys| =>
        CalculateDailyAverage(keys[i], DayGroup(forecastData, keys[i])));
      ForecastFacts(forecastData, keys, r);
      r
  }

  lemma ForecastFacts(forecastData: seq<GenerationData>, keys: seq<DateKey>, r: seq<EnergyReport>)
    requires keys == SortedDates(Dates(forecastData))
    requires |r| == |keys|
    requires forall i :: 0 <= i < |r| ==> r[i].date == keys[i]
    ensures ReportDates(r) == DatesOf(forecastData)
    ensures |r| == |DatesOf(forecastData)|
  {
    assert DateSet(keys) == DatesOf(forecastData);
    assert ReportDates(r) == DateSet(keys) by {
      forall x | x in keys
        ensures x in ReportDates(r)
      {
        var i :| 0 <= i < |keys| && keys[i] == x;
        assert r[i] in r;
      }
    }
    StrictlyIncreasingCard(keys);
  }
}
