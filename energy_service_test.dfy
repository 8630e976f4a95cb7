/**
 * The unit-test scenarios of the forecast service, stated against the model.
 */
module EnergyServiceTest {
  import opened Wrappers
  import opened EnergyModel
  import opened EnergyService

  /** The calendar day 2025-01-01. */
  const NewYear2025: DateKey := 20250101

  function CreateSlot(from: Timestamp, to: Timestamp, fuel: string, perc: real): GenerationData {
    GenerationData(from, to, NewYear2025, [GenerationItem(fuel, perc)])
  }

  /** Three half-hour slots from 12:00: coal only, then wind only twice. */
  function MockDataSequence(): seq<GenerationData> {
    [ CreateSlot("2025-01-01T12:00Z", "2025-01-01T12:30Z", "coal", 100.0),
      CreateSlot("2025-01-01T12:30Z", "2025-01-01T13:00Z", "wind", 100.0),
      CreateSlot("2025-01-01T13:00Z", "2025-01-01T13:30Z", "wind", 100.0) ]
  }

  lemma ClassificationExamples()
    ensures IsRenewable("Wind") && IsRenewable("wind") && IsRenewable("BIOMASS")
    ensures !IsRenewable("gas") && !IsRenewable("coal") && !IsRenewable("unknown-fuel")
  {
    assert ToLower("Wind") == "wind";
    assert ToLower("wind") == "wind";
    assert ToLower("BIOMASS") == "biomass";
    assert ToLower("coal")[0] == 'c';
    assert ToLower("gas")[0] == 'g';
    assert |ToLower("unknown-fuel")| == 12;
  }

  /** Slot clean percentages 0, 100, 100; window averages 50 and 100. */
  lemma MockWindows()
    ensures IsBestWindow(MockDataSequence(), 2, 1)
    ensures WindowAverage(MockDataSequence(), 1, 2) == 100.0
  {
    var data := MockDataSequence();
    ClassificationExamples();
    assert SlotCleanPercent(data[0]) == 0.0;
    assert SlotCleanPercent(data[1]) == 100.0;
    assert SlotCleanPercent(data[2]) == 100.0;
    assert WindowAverage(data, 0, 2) == 50.0;
    assert WindowAverage(data, 1, 2) == 100.0;
  }

  /** The best one-hour window is 12:30 to 13:30 with a 100 percent average. */
  method ShouldFindBestWindowIdeally() returns (result: Option<OptimalWindowReport>)
    ensures result == Some(OptimalWindowReport("2025-01-01T12:30Z", "2025-01-01T13:30Z", 100.0))
  {
    var fakeData := MockDataSequence();
    result := FindOptimalWindow(fakeData, 1);
    MockWindows();
    assert result.Some?;
    ghost var b :| IsBestWindow(fakeData, 2, b) &&
      result.value == OptimalWindowReport(fakeData[b].from, fakeData[b + 1].to, WindowAverage(fakeData, b, 2));
    BestWindowUnique(fakeData, 2, b, 1);
  }

  /** No data, no window. */
  method ShouldReturnNullWhenNotEnoughData() returns (result: Option<OptimalWindowReport>)
    ensures result == None
  {
    result := FindOptimalWindow([], 2);
  }

  function MockItems(): seq<GenerationItem> {
    [GenerationItem("coal", 100.0), GenerationItem("wind", 100.0), GenerationItem("wind", 100.0)]
  }

  lemma MockGrouping()
    ensures SortedDates(Dates(MockDataSequence())) == [NewYear2025]
    ensures DayGroup(MockDataSequence(), NewYear2025) == MockDataSequence()
    ensures Flatten(MockDataSequence()) == MockItems()
  {
    var data := MockDataSequence();
    assert data[..2][..1] == data[..1];
    assert data[..1][..0] == [];
    assert Dates(data) == [NewYear2025, NewYear2025, NewYear2025];
    assert Dates(data)[..2] == [NewYear2025, NewYear2025];
    assert Dates(data)[..2][..1] == [NewYear2025];
    assert SortedDates([NewYear2025]) == [NewYear2025] by {
      assert [NewYear2025][..0] == [];
    }
    assert SortedDates([NewYear2025, NewYear2025]) == [NewYear2025] by {
      assert [NewYear2025, NewYear2025][..1] == [NewYear2025];
    }
    assert SortedDates(Dates(data)) == [NewYear2025];
    assert DayGroup(data[..1], NewYear2025) == data[..1];
    assert DayGroup(data[..2], NewYear2025) == data[..2];
    assert Flatten(data[..1]) == [GenerationItem("coal", 100.0)];
    assert Flatten(data[..2]) == [GenerationItem("coal", 100.0), GenerationItem("wind", 100.0)];
  }

  lemma MockDistinctFuels()
    ensures DistinctFuels(MockItems()) == ["coal", "wind"]
  {
    var items := MockItems();
    assert items[..2][..1] == items[..1];
    assert items[..1][..0] == [];
    assert DistinctFuels(items[..1]) == ["coal"];
    assert DistinctFuels(items[..2]) == ["coal", "wind"];
  }

  lemma MockAverages()
    ensures AverageByFuel(MockItems()) == map["coal" := 100.0, "wind" := 100.0]
  {
    var items := MockItems();
    assert items[..2][..1] == items[..1];
    assert items[..1][..0] == [];
    assert FuelTotals(items[..1]) == map["coal" := (100.0, 1)];
    assert FuelTotals(items[..2]) == map["coal" := (100.0, 1), "wind" := (100.0, 1)];
    assert FuelTotals(items) == map["coal" := (100.0, 1), "wind" := (200.0, 2)];
  }

  lemma MockRawSources()
    ensures RawSources(MockItems()) == [EnergySource("coal", 100.0, false), EnergySource("wind", 100.0, true)]
  {
    ClassificationExamples();
    MockDistinctFuels();
    MockAverages();
  }

  lemma MockNormalized()
    ensures NormalizeTo100Percent([EnergySource("coal", 100.0, false), EnergySource("wind", 100.0, true)])
      == [EnergySource("coal", 50.0, false), EnergySource("wind", 50.0, true)]
  {
    var raw := [EnergySource("coal", 100.0, false), EnergySource("wind", 100.0, true)];
    assert raw[..1][..0] == [];
    assert SourcesTotal(raw[..1]) == 100.0;
    assert SourcesTotal(raw) == 200.0;
  }

  /**
   * The daily aggregation of the same data: coal averages 100 over its one
   * item and wind 100 over its two, so the raw total is 200 and each is
   * rescaled to 50.
   */
  lemma MockForecast()
    ensures GetThreeDayForecast(MockDataSequence()) ==
      [EnergyReport(NewYear2025,
         [EnergySource("coal", 50.0, false), EnergySource("wind", 50.0, true)],
         50.0)]
  {
    MockGrouping();
    MockRawSources();
    MockNormalized();
    var normalized := [EnergySource("coal", 50.0, false), EnergySource("wind", 50.0, true)];
    assert normalized[..1][..0] == [];
    assert RenewableShare(normalized) == 50.0;
  }
}
