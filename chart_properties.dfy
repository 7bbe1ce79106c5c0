/**
 * What the chart page's numbers mean, stated over the functions of HomePage:
 * the bars partition the filtered total, each line sums to its state's bar,
 * the year axis is sorted and gap-free, and a year picked from the year list
 * filters exactly that year's records.
 */
module ChartProperties {
  import opened JsNumber
  import opened ParseInt
  import opened Collections
  import opened TrafficRoute
  import opened HomePage

  /** Every record's state is one of the labels. */
  predicate CoversRegions(data: seq<TrafficData>, labels: seq<string>)
  {
    forall k :: 0 <= k < |data| ==> data[k].bundesland in labels
  }

  /** No record has a NaN year (a `null` year is allowed). */
  predicate NoNaNYear(data: seq<TrafficData>)
  {
    forall k :: 0 <= k < |data| ==> !data[k].jahr.NaN?
  }

  /** Every record's year is an integer: neither NaN nor `null`. */
  predicate YearsAreNumbers(data: seq<TrafficData>)
  {
    forall k :: 0 <= k < |data| ==> data[k].jahr.Val?
  }

  /** Adding one record to the end changes only its own state's sum, by its count. */
  lemma RegionTotalStep(data: seq<TrafficData>, region: string)
    requires data != []
    ensures var n := |data| - 1;
            RegionTotal(data, region)
            == if data[n].bundesland == region then Add(RegionTotal(data[..n], region), data[n].getotete)
               else RegionTotal(data[..n], region)
  {
  }

  /** Adding one record to the end changes only its own state-and-year sum, by its count. */
  lemma RegionYearTotalStep(data: seq<TrafficData>, region: string, year: Num)
    requires data != []
    ensures var n := |data| - 1;
            RegionYearTotal(data, region, year)
            == if data[n].bundesland == region && StrictEquals(data[n].jahr, year)
               then Add(RegionYearTotal(data[..n], region, year), data[n].getotete)
               else RegionYearTotal(data[..n], region, year)
  {
  }

  /** Appending a record whose state is labels[i] adds its count to entry i of the per-state sums and nothing elsewhere. */
  lemma RegionTotalsStep(data: seq<TrafficData>, labels: seq<string>, i: nat)
    requires data != [] && NoDup(labels)
    requires i < |labels| && labels[i] == data[|data| - 1].bundesland
    ensures var n := |data| - 1;
            forall j :: 0 <= j < |labels| ==>
              RegionTotals(data, labels)[j]
              == Add(RegionTotals(data[..n], labels)[j], Hit(|labels|, i, data[n].getotete)[j])
  {
    forall j | 0 <= j < |labels|
      ensures RegionTotal(data, labels[j])
              == Add(RegionTotal(data[..|data| - 1], labels[j]), Hit(|labels|, i, data[|data| - 1].getotete)[j])
    {
      RegionTotalStep(data, labels[j]);
      if j != i {
        assert labels[j] != labels[i];
      }
    }
  }

  /**
   * Grouping by state is a partition: over any duplicate-free list of states
   * that covers every record, the per-state sums add up to the total.
   */
  lemma {:induction false} RegionTotalsPartition(data: seq<TrafficData>, labels: seq<string>)
    requires NoDup(labels) && CoversRegions(data, labels)
    ensures SumNums(RegionTotals(data, labels)) == Total(data)
  {
    if data == [] {
      SumZeros(RegionTotals(data, labels));
    } else {
      var n := |data| - 1;
      assert CoversRegions(data[..n], labels) by {
        assert forall k :: 0 <= k < n ==> data[..n][k] == data[k];
      }
      RegionTotalsPartition(data[..n], labels);
      var i :| 0 <= i < |labels| && labels[i] == data[n].bundesland;
      RegionTotalsStep(data, labels, i);
      SumPointwise(RegionTotals(data[..n], labels), Hit(|labels|, i, data[n].getotete), RegionTotals(data, labels));
      SumHit(|labels|, i, data[n].getotete);
      AddZeroThen(Total(data[..n]), data[n].getotete);
    }
  }

  /** The bars of the bar chart add up to the total of the filtered records. */
  lemma BarChartPartitionsTotal(filteredData: seq<TrafficData>, yearFilter: string)
    ensures SumNums(GetBarChartData(filteredData, yearFilter).data) == Total(filteredData)
  {
    var bar := GetBarChartData(filteredData, yearFilter);
    assert bar.data == RegionTotals(filteredData, bar.labels);
    RegionTotalsPartition(filteredData, bar.labels);
  }

  /** Appending a record of the state in year years[i] adds its count to entry i of the state's per-year sums. */
  lemma YearTotalsStep(data: seq<TrafficData>, region: string, years: seq<Num>, i: nat)
    requires data != [] && NoDup(years)
    requires data[|data| - 1].bundesland == region && !data[|data| - 1].jahr.NaN?
    requires i < |years| && years[i] == data[|data| - 1].jahr
    ensures var n := |data| - 1;
            forall j :: 0 <= j < |years| ==>
              YearTotals(data, region, years)[j]
              == Add(YearTotals(data[..n], region, years)[j], Hit(|years|, i, data[n].getotete)[j])
  {
    forall j | 0 <= j < |years|
      ensures RegionYearTotal(data, region, years[j])
              == Add(RegionYearTotal(data[..|data| - 1], region, years[j]), Hit(|years|, i, data[|data| - 1].getotete)[j])
    {
      RegionYearTotalStep(data, region, years[j]);
      if j != i {
        assert years[j] != years[i];
      }
    }
  }

  /** Appending a record of another state leaves the state's per-year sums unchanged. */
  lemma YearTotalsUnchanged(data: seq<TrafficData>, region: string, years: seq<Num>)
    requires data != [] && data[|data| - 1].bundesland != region
    ensures YearTotals(data, region, years) == YearTotals(data[..|data| - 1], region, years)
  {
    forall j | 0 <= j < |years|
      ensures RegionYearTotal(data, region, years[j]) == RegionYearTotal(data[..|data| - 1], region, years[j])
    {
      RegionYearTotalStep(data, region, years[j]);
    }
  }

  /**
   * One state's sums over any duplicate-free list of years that covers every
   * year of that state's records add up to the state's total, provided none
   * of those years is NaN (`null` years are matched by a `null` column).
   */
  lemma {:induction false} YearTotalsPartition(data: seq<TrafficData>, region: string, years: seq<Num>)
    requires NoDup(years)
    requires forall k :: 0 <= k < |data| && data[k].bundesland == region ==> !data[k].jahr.NaN? && data[k].jahr in years
    ensures SumNums(YearTotals(data, region, years)) == RegionTotal(data, region)
  {
    if data == [] {
      SumZeros(YearTotals(data, region, years));
    } else {
      var n := |data| - 1;
      assert forall k :: 0 <= k < n ==> data[..n][k] == data[k];
      YearTotalsPartition(data[..n], region, years);
      RegionTotalStep(data, region);
      if data[n].bundesland == region {
        var i :| 0 <= i < |years| && years[i] == data[n].jahr;
        YearTotalsStep(data, region, years, i);
        SumPointwise(YearTotals(data[..n], region, years), Hit(|years|, i, data[n].getotete), YearTotals(data, region, years));
        SumHit(|years|, i, data[n].getotete);
        AddZeroThen(RegionTotal(data[..n], region), data[n].getotete);
      } else {
        YearTotalsUnchanged(data, region, years);
      }
    }
  }

  /**
   * When no year is NaN, each line of the line chart sums to the bar its state
   * gets over the same records, and the lines come in the bars' order.
   */
  lemma LinesMatchBars(filteredData: seq<TrafficData>, yearFilter: string)
    requires NoNaNYear(filteredData)
    ensures var line := GetLineChartData(filteredData);
            var bar := GetBarChartData(filteredData, yearFilter);
            |line.datasets| == |bar.labels| &&
            forall i :: 0 <= i < |bar.labels| ==>
              line.datasets[i].seriesLabel == bar.labels[i] && SumNums(line.datasets[i].data) == bar.data[i]
  {
    var line := GetLineChartData(filteredData);
    var bar := GetBarChartData(filteredData, yearFilter);
    var years := Years(filteredData);
    forall i | 0 <= i < |bar.labels|
      ensures SumNums(line.datasets[i].data) == bar.data[i]
    {
      YearTotalsPartition(filteredData, bar.labels[i], years);
    }
  }

  /** With every year an integer, `allYears` and the line chart's axis are strictly ascending, hence free of repeats. */
  lemma YearsStrictlyAscending(data: seq<TrafficData>)
    requires YearsAreNumbers(data)
    ensures StrictlyAscending(Years(data))
    ensures NoDup(Years(data))
  {
    var years := YearValues(data);
    var d := Distinct(years);
    assert forall i :: 0 <= i < |d| ==> d[i].Val? by {
      forall i | 0 <= i < |d| ensures d[i].Val? {
        assert d[i] in years;
      }
    }
    SortNumbersStrictlyAscending(d);
    assert Years(data) == SortNumbers(d);
  }

  /** The bar labels (and the lines) follow the order in which the states first occur in the records. */
  lemma RegionsInFirstOccurrenceOrder(data: seq<TrafficData>, i: nat, j: nat)
    requires i < j < |Regions(data)|
    ensures FirstIndex(Names(data), Regions(data)[i]) < FirstIndex(Names(data), Regions(data)[j])
  {
    DistinctInFirstOccurrenceOrder(Names(data), i, j);
  }

  /**
   * No gaps: a state with no record in a year gets 0 for that year, and the
   * column of a NaN year is 0 throughout, since NaN matches no record.
   */
  lemma LineChartHasNoGaps(filteredData: seq<TrafficData>, i: nat, j: nat)
    requires i < |GetLineChartData(filteredData).datasets|
    requires j < |GetLineChartData(filteredData).labels|
    ensures var line := GetLineChartData(filteredData);
            var region, year := line.datasets[i].seriesLabel, line.labels[j];
            |line.datasets[i].data| == |line.labels| &&
            ((year.NaN? || forall k :: 0 <= k < |filteredData| ==>
                !(filteredData[k].bundesland == region && filteredData[k].jahr == year))
             ==> line.datasets[i].data[j] == Val(0))
  {
  }

  /** A bar is NaN exactly when one of its state's records has a NaN count. */
  lemma BarIsNaNIffRecordIsNaN(filteredData: seq<TrafficData>, yearFilter: string, i: nat)
    requires i < |GetBarChartData(filteredData, yearFilter).labels|
    ensures var bar := GetBarChartData(filteredData, yearFilter);
            bar.data[i].NaN? <==> exists k :: 0 <= k < |filteredData| &&
                                     filteredData[k].bundesland == bar.labels[i] && filteredData[k].getotete.NaN?
  {
  }

  /** Without any records there are no bars and no lines, and the charts are still built. */
  lemma EmptyDataGivesEmptyCharts(yearFilter: string)
    ensures GetBarChartData([], yearFilter).labels == [] && GetBarChartData([], yearFilter).data == []
    ensures GetLineChartData([]).labels == [] && GetLineChartData([]).datasets == []
  {
  }

  /** Filtering keeps no more records than it was given. */
  lemma FilterNoLonger(rawData: seq<TrafficData>, bundeslandFilter: string, yearFilter: string)
    ensures |FilteredData(rawData, bundeslandFilter, yearFilter)| <= |rawData|
  {
    SubseqNoLonger(FilteredData(rawData, bundeslandFilter, yearFilter), rawData);
  }

  /**
   * A year picked from the year list reaches the filter as its decimal
   * rendering (the `<option value>`), and `parseInt` turns it back into the
   * same year: the filter keeps every record of that year (that also passes
   * the state filter) as often as it occurs, and no other record.
   */
  lemma SelectedYearFiltersThatYear(rawData: seq<TrafficData>, bundeslandFilter: string, year: int)
    ensures var f := FilteredData(rawData, bundeslandFilter, IntToString(year));
            forall item :: multiset(f)[item]
                           == if item.jahr == Val(year) && (bundeslandFilter == "" || item.bundesland == bundeslandFilter)
                              then multiset(rawData)[item] else 0
  {
    ParseIntOfIntToString(year);
  }

  /** A year filter with no leading digits parses to NaN, which no year equals: nothing passes. */
  lemma UnparsableYearFilterKeepsNothing(rawData: seq<TrafficData>, bundeslandFilter: string, yearFilter: string)
    requires yearFilter != "" && ParseInt10(yearFilter) == NaN
    ensures FilteredData(rawData, bundeslandFilter, yearFilter) == []
  {
    var f := FilteredData(rawData, bundeslandFilter, yearFilter);
    assert forall k :: 0 <= k < |f| ==> f[k] in f;
  }

  /** Records without a NaN count give bars that are all numbers. */
  lemma BarsWithoutNaNCounts(filteredData: seq<TrafficData>, yearFilter: string)
    requires forall k :: 0 <= k < |filteredData| ==> !filteredData[k].getotete.NaN?
    ensures var bar := GetBarChartData(filteredData, yearFilter);
            forall i :: 0 <= i < |bar.labels| ==> bar.data[i].Val?
  {
    var bar := GetBarChartData(filteredData, yearFilter);
    forall i | 0 <= i < |bar.labels| ensures bar.data[i].Val? {
      assert bar.data[i] == RegionTotal(filteredData, bar.labels[i]);
    }
  }

  /** Filtering the records the page reads back from the route leaves no NaN count. */
  lemma FilteredTransmitHasNoNaN(records: seq<TrafficData>, bundeslandFilter: string, yearFilter: string)
    ensures forall k :: 0 <= k < |FilteredData(Transmit(records), bundeslandFilter, yearFilter)|
                        ==> !FilteredData(Transmit(records), bundeslandFilter, yearFilter)[k].getotete.NaN?
  {
    var raw := Transmit(records);
    var f := FilteredData(raw, bundeslandFilter, yearFilter);
    forall k | 0 <= k < |f| ensures !f[k].getotete.NaN? {
      assert f[k] in raw;
      var j :| 0 <= j < |raw| && raw[j] == f[k];
    }
  }

  /**
   * The records the page reads back from the route (`Transmit(Route(body))`
   * for any body) contain no NaN, so no bar is NaN: a count that failed to
   * parse arrives as `null` and adds 0.
   */
  lemma TransmittedBarsAreNumbers(records: seq<TrafficData>, bundeslandFilter: string, yearFilter: string)
    ensures var bar := GetBarChartData(FilteredData(Transmit(records), bundeslandFilter, yearFilter), yearFilter);
            forall i :: 0 <= i < |bar.labels| ==> bar.data[i].Val?
  {
    var f := FilteredData(Transmit(records), bundeslandFilter, yearFilter);
    FilteredTransmitHasNoNaN(records, bundeslandFilter, yearFilter);
    BarsWithoutNaNCounts(f, yearFilter);
  }

  /** The colour table covers exactly the nine state names the route can produce, none of them grey. */
  lemma EveryStateHasItsOwnColor()
    ensures ColorMap.Keys == RegionNames
    ensures forall code :: code in BundeslandMapping ==> RegionColor(DecodeBundesland(code)) != DefaultColor
    ensures forall region :: region !in RegionNames ==> RegionColor(region) == DefaultColor
  {
  }

  /** Three records: Tirol in 2020 and 2019, Wien only in 2020. */
  const ExampleData := [TrafficData("Tirol", Val(2020), Val(2)),
                        TrafficData("Wien", Val(2020), Val(4)),
                        TrafficData("Tirol", Val(2019), Val(1))]

  /** `new Set` fed a, a, c with c different from a. */
  lemma DistinctRepeatFirst<T(!new)>(a: T, c: T)
    requires a != c
    ensures Distinct([a, a, c]) == [a, c]
  {
    DistinctSnocNew([], a);
    assert [] + [a] == [a];
    DistinctSnocSeen([a], a);
    assert [a] + [a] == [a, a];
    DistinctSnocNew([a, a], c);
    assert [a, a] + [c] == [a, a, c];
  }

  /** `new Set` fed a, b, a with b different from a. */
  lemma DistinctRepeatLast<T(!new)>(a: T, b: T)
    requires a != b
    ensures Distinct([a, b, a]) == [a, b]
  {
    DistinctSnocNew([], a);
    assert [] + [a] == [a];
    DistinctSnocNew([a], b);
    assert [a] + [b] == [a, b];
    DistinctSnocSeen([a, b], a);
    assert [a, b] + [a] == [a, b, a];
  }

  /** The example's distinct years, in order of first occurrence. */
  lemma ExampleDistinctYears()
    ensures Distinct(YearValues(ExampleData)) == [Val(2020), Val(2019)]
  {
    assert YearValues(ExampleData) == [Val(2020), Val(2020), Val(2019)];
    DistinctRepeatFirst(Val(2020), Val(2019));
  }

  /** Sorting the example's distinct years. */
  lemma ExampleSortedYears()
    ensures SortNumbers([Val(2020), Val(2019)]) == [Val(2019), Val(2020)]
  {
    assert [Val(2020), Val(2019)][..1] == [Val(2020)];
    assert [Val(2020)][..0] == [];
    assert SortNumbers([Val(2020)]) == [Val(2020)];
  }

  /** The example's year axis. */
  lemma ExampleYears()
    ensures Years(ExampleData) == [Val(2019), Val(2020)]
  {
    ExampleDistinctYears();
    ExampleSortedYears();
  }

  lemma ExampleRegions()
    ensures Regions(ExampleData) == ["Tirol", "Wien"]
  {
    assert Names(ExampleData) == ["Tirol", "Wien", "Tirol"];
    DistinctRepeatLast("Tirol", "Wien");
  }

  lemma ExampleTotals()
    ensures YearTotals(ExampleData, "Tirol", [Val(2019), Val(2020)]) == [Val(1), Val(2)]
    ensures YearTotals(ExampleData, "Wien", [Val(2019), Val(2020)]) == [Val(0), Val(4)]
  {
    var data := ExampleData;
    var d1, d2 := data[..1], data[..2];
    assert d1 == [data[0]] && d2 == [data[0], data[1]];
    assert d2[..1] == d1 && d1[..0] == [];
    assert RegionYearTotal(d1, "Tirol", Val(2019)) == Val(0);
    assert RegionYearTotal(d2, "Tirol", Val(2019)) == Val(0);
    assert RegionYearTotal(data, "Tirol", Val(2019)) == Val(1);
    assert RegionYearTotal(d1, "Tirol", Val(2020)) == Val(2);
    assert RegionYearTotal(d2, "Tirol", Val(2020)) == Val(2);
    assert RegionYearTotal(data, "Tirol", Val(2020)) == Val(2);
    assert RegionYearTotal(d1, "Wien", Val(2019)) == Val(0);
    assert RegionYearTotal(d2, "Wien", Val(2019)) == Val(0);
    assert RegionYearTotal(data, "Wien", Val(2019)) == Val(0);
    assert RegionYearTotal(d1, "Wien", Val(2020)) == Val(0);
    assert RegionYearTotal(d2, "Wien", Val(2020)) == Val(4);
    assert RegionYearTotal(data, "Wien", Val(2020)) == Val(4);
  }

  /**
   * A worked line chart: Tirol has records in 2019 and 2020, Wien only in
   * 2020, so Wien's line starts at 0 rather than leaving 2019 out.
   */
  lemma LineChartExample()
    ensures Render(ExampleData, "", "")
            == Line(LineChartData([Val(2019), Val(2020)],
                                  [LineDataset("Tirol", [Val(1), Val(2)], "#43aa8b", "#43aa8b"),
                                   LineDataset("Wien", [Val(0), Val(4)], "#577590", "#577590")]))
  {
    ExampleLineChartData();
    assert FilteredData(ExampleData, "", "") == ExampleData;
  }

  /** The line data of records covering exactly two states. */
  lemma TwoLines(data: seq<TrafficData>, first: string, second: string)
    requires Regions(data) == [first, second]
    ensures GetLineChartData(data)
            == LineChartData(Years(data),
                             [LineDataset(first, YearTotals(data, first, Years(data)), RegionColor(first), RegionColor(first)),
                              LineDataset(second, YearTotals(data, second, Years(data)), RegionColor(second), RegionColor(second))])
  {
    var chart := GetLineChartData(data);
    assert chart.datasets == [chart.datasets[0], chart.datasets[1]];
  }

  /** The colours of the example's two states. */
  lemma ExampleColors()
    ensures RegionColor("Tirol") == "#43aa8b" && RegionColor("Wien") == "#577590"
  {
  }

  /** The line data of the worked example. */
  lemma ExampleLineChartData()
    ensures GetLineChartData(ExampleData)
            == LineChartData([Val(2019), Val(2020)],
                             [LineDataset("Tirol", [Val(1), Val(2)], "#43aa8b", "#43aa8b"),
                              LineDataset("Wien", [Val(0), Val(4)], "#577590", "#577590")])
  {
    ExampleYears();
    ExampleRegions();
    ExampleTotals();
    ExampleColors();
    TwoLines(ExampleData, "Tirol", "Wien");
  }
}
